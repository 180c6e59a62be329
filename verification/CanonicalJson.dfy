/** JSON values and the grammar that relates them to tokens, as in sections 2 to 6 of
    RFC 8259, with integers for numbers. */
module JsonModel {
  /** A malformed token stands for text that is no token at all. */
  datatype Token =
    | LeftBrace | RightBrace | LeftBracket | RightBracket | Comma | Colon
    | StringToken(text: string) | NumberToken(digits: string) | BoolToken(flag: bool) | NullToken | Malformed

  datatype Json =
    | Null
    | Bool(flag: bool)
    | Number(digits: string)
    | Text(text: string)
    | Array(items: seq<Json>)
    | Object(fields: map<string, Json>)

  /** Non-positive limits on depth and collection size mean none. */
  datatype Limits = Limits(bytes: int, depth: int, collection: int)

  predicate Digit(c: char) {
    '0' <= c <= '9'
  }

  /** Digits without a leading zero. */
  predicate Digital(s: string) {
    s != "" && s[0] != '0' && forall i :: 0 <= i < |s| ==> Digit(s[i])
  }

  predicate ValidInteger(value: string) {
    value == "0" || Digital(if value != "" && value[0] == '-' then value[1..] else value)
  }

  /** Integers only, and no empty key. */
  predicate WellFormed(v: Json) {
    match v
    case Number(digits) => ValidInteger(digits)
    case Array(items) => forall i :: 0 <= i < |items| ==> WellFormed(items[i])
    case Object(fields) => forall k <- fields :: k != "" && WellFormed(fields[k])
    case _ => true
  }

  predicate DepthOk(limits: Limits, depth: int) {
    limits.depth > 0 ==> depth <= limits.depth
  }

  predicate SizeOk(limits: Limits, size: int) {
    limits.collection > 0 ==> size <= limits.collection
  }

  predicate Within(v: Json, limits: Limits, depth: int) {
    && DepthOk(limits, depth)
    && match v
       case Array(items) =>
         SizeOk(limits, |items|) && forall i :: 0 <= i < |items| ==> Within(items[i], limits, depth + 1)
       case Object(fields) =>
         SizeOk(limits, |fields|) && forall k <- fields :: Within(fields[k], limits, depth + 1)
       case _ => true
  }

  /** The value nests no deeper than h levels, itself included. */
  predicate NestsWithin(v: Json, h: int) {
    && 1 <= h
    && match v
       case Array(items) => forall i :: 0 <= i < |items| ==> NestsWithin(items[i], h - 1)
       case Object(fields) => forall k <- fields :: NestsWithin(fields[k], h - 1)
       case _ => true
  }

  /** No array or object in the value has more than n parts. */
  predicate PartsWithin(v: Json, n: int) {
    match v
    case Array(items) => |items| <= n && forall i :: 0 <= i < |items| ==> PartsWithin(items[i], n)
    case Object(fields) => |fields| <= n && forall k <- fields :: PartsWithin(fields[k], n)
    case _ => true
  }

  /** What the limits mean: the first level has depth 1, and only positive limits
      count. */
  lemma {:induction false} LimitsExactly(v: Json, limits: Limits, depth: int)
    ensures Within(v, limits, depth) <==>
              && (limits.depth > 0 ==> NestsWithin(v, limits.depth - depth + 1))
              && (limits.collection > 0 ==> PartsWithin(v, limits.collection))
  {
    match v {
      case Array(items) =>
        forall i | 0 <= i < |items|
          ensures Within(items[i], limits, depth + 1) <==>
                    && (limits.depth > 0 ==> NestsWithin(items[i], limits.depth - depth))
                    && (limits.collection > 0 ==> PartsWithin(items[i], limits.collection))
        {
          LimitsExactly(items[i], limits, depth + 1);
        }
      case Object(fields) =>
        forall k | k in fields
          ensures Within(fields[k], limits, depth + 1) <==>
                    && (limits.depth > 0 ==> NestsWithin(fields[k], limits.depth - depth))
                    && (limits.collection > 0 ==> PartsWithin(fields[k], limits.collection))
        {
          LimitsExactly(fields[k], limits, depth + 1);
        }
      case _ =>
    }
  }

  predicate Distinct(keys: seq<string>) {
    forall i, j :: 0 <= i < j < |keys| ==> keys[i] != keys[j]
  }

  function Separator(first: bool): seq<Token> {
    if first then [] else [Comma]
  }

  /** The members of an object, separated, in the order of the keys. */
  function Members(keys: seq<string>, parts: seq<seq<Token>>, first: bool): seq<Token>
    requires |parts| == |keys|
  {
    if keys == [] then [] else
    Separator(first) + [StringToken(keys[0]), Colon] + parts[0] + Members(keys[1..], parts[1..], false)
  }

  function Elements(parts: seq<seq<Token>>, first: bool): seq<Token> {
    if parts == [] then [] else Separator(first) + parts[0] + Elements(parts[1..], false)
  }

  /** The keys are those of the fields, each once, in any order. */
  predicate Enumerates(keys: seq<string>, fields: map<string, Json>) {
    Distinct(keys) && (forall k <- keys :: k in fields) && forall k <- fields :: k in keys
  }

  /** The tokens are a JSON text of the value: a value has one for each order of the
      members of each of its objects. */
  ghost predicate Renders(ts: seq<Token>, v: Json)
    decreases v
  {
    match v
    case Null => ts == [NullToken]
    case Bool(flag) => ts == [BoolToken(flag)]
    case Number(digits) => ts == [NumberToken(digits)]
    case Text(text) => ts == [StringToken(text)]
    case Array(items) =>
      exists parts: seq<seq<Token>> :: |parts| == |items| &&
        ts == [LeftBracket] + Elements(parts, true) + [RightBracket] &&
        forall i :: 0 <= i < |items| ==> Renders(parts[i], items[i])
    case Object(fields) =>
      exists keys: seq<string>, parts: seq<seq<Token>> :: |parts| == |keys| && Enumerates(keys, fields) &&
        ts == [LeftBrace] + Members(keys, parts, true) + [RightBrace] &&
        forall i :: 0 <= i < |keys| ==> keys[i] in fields && Renders(parts[i], fields[keys[i]])
  }
}

/** The decoder: from tokens to a value and the tokens left over. */
module JsonDecoder {
  import opened Wrappers
  import opened JsonModel

  datatype Parsed = Parsed(value: Json, rest: seq<Token>)

  function DecodeValue(ts: seq<Token>, limits: Limits, depth: int): (r: Option<Parsed>)
    ensures r.Some? ==> |r.value.rest| < |ts|
    decreases |ts|, 0
  {
    if !DepthOk(limits, depth) || ts == [] then None else
    match ts[0]
    case LeftBrace => DecodeMembers(ts[1..], limits, depth, map[], true)
    case LeftBracket => DecodeElements(ts[1..], limits, depth, [], true)
    case NumberToken(digits) => if ValidInteger(digits) then Some(Parsed(Number(digits), ts[1..])) else None
    case StringToken(text) => Some(Parsed(Text(text), ts[1..]))
    case BoolToken(flag) => Some(Parsed(Bool(flag), ts[1..]))
    case NullToken => Some(Parsed(Null, ts[1..]))
    case _ => None
  }

  /** The tokens after the separator that must stand here. */
  function AfterSeparator(ts: seq<Token>, first: bool): (r: Option<seq<Token>>)
    ensures r.Some? ==> ts == Separator(first) + r.value
  {
    if first then Some(ts) else if ts != [] && ts[0] == Comma then Some(ts[1..]) else None
  }

  /** The members of an object whose earlier members are in `found`. */
  function DecodeMembers(ts: seq<Token>, limits: Limits, depth: int, found: map<string, Json>,
                         first: bool): (r: Option<Parsed>)
    ensures r.Some? ==> |r.value.rest| < |ts|
    decreases |ts|, 1
  {
    if ts == [] then None
    else if ts[0] == RightBrace then Some(Parsed(Object(found), ts[1..]))
    else if !SizeOk(limits, |found| + 1) then None else
    match AfterSeparator(ts, first)
    case None => None
    case Some(us) =>
      if |us| < 2 || !us[0].StringToken? || us[0].text == "" || us[0].text in found || us[1] != Colon then None else
      match DecodeValue(us[2..], limits, depth + 1)
      case None => None
      case Some(child) => DecodeMembers(child.rest, limits, depth, found[us[0].text := child.value], false)
  }

  function DecodeElements(ts: seq<Token>, limits: Limits, depth: int, found: seq<Json>,
                          first: bool): (r: Option<Parsed>)
    ensures r.Some? ==> |r.value.rest| < |ts|
    decreases |ts|, 1
  {
    if ts == [] then None
    else if ts[0] == RightBracket then Some(Parsed(Array(found), ts[1..]))
    else if !SizeOk(limits, |found| + 1) then None else
    match AfterSeparator(ts, first)
    case None => None
    case Some(us) =>
      match DecodeValue(us, limits, depth + 1)
      case None => None
      case Some(child) => DecodeElements(child.rest, limits, depth, found + [child.value], false)
  }

  /** A part of the text is a child of a value at the given depth. */
  ghost predicate Child(part: seq<Token>, v: Json, limits: Limits, depth: int) {
    Renders(part, v) && WellFormed(v) && Within(v, limits, depth)
  }

  /** Whatever is decoded is well formed, within the limits, and rendered by the
      tokens consumed. */
  lemma {:induction false} DecodeIsSound(ts: seq<Token>, limits: Limits, depth: int) returns (used: seq<Token>)
    requires DecodeValue(ts, limits, depth).Some?
    ensures ts == used + DecodeValue(ts, limits, depth).value.rest
    ensures Child(used, DecodeValue(ts, limits, depth).value.value, limits, depth)
    decreases |ts|, 0
  {
    hide DecodeMembers, DecodeElements, Child;
    var parsed := DecodeValue(ts, limits, depth).value;
    assert ts == [ts[0]] + ts[1..];
    if ts[0] == LeftBrace {
      var keys, parts := MembersAreSound(ts[1..], limits, depth, map[], true);
      used := [LeftBrace] + Members(keys, parts, true) + [RightBrace];
      ObjectIsChild(keys, parts, parsed.value, limits, depth);
    } else if ts[0] == LeftBracket {
      var parts := ElementsAreSound(ts[1..], limits, depth, [], true);
      used := [LeftBracket] + Elements(parts, true) + [RightBracket];
      ArrayIsChild(parts, parsed.value, limits, depth);
    } else {
      used := [ts[0]];
      ScalarIsChild(ts, limits, depth);
    }
  }

  lemma ScalarIsChild(ts: seq<Token>, limits: Limits, depth: int)
    requires DecodeValue(ts, limits, depth).Some? && ts[0] != LeftBrace && ts[0] != LeftBracket
    ensures DecodeValue(ts, limits, depth).value.rest == ts[1..]
    ensures Child([ts[0]], DecodeValue(ts, limits, depth).value.value, limits, depth)
  {
    hide DecodeMembers, DecodeElements;
  }

  lemma ObjectIsChild(keys: seq<string>, parts: seq<seq<Token>>, v: Json, limits: Limits, depth: int)
    requires |parts| == |keys| && v.Object? && Extends(map[], keys, v.fields) && DepthOk(limits, depth)
    requires SizeOk(limits, |v.fields|)
    requires forall i :: 0 <= i < |keys| ==>
               keys[i] in v.fields && keys[i] != "" && Child(parts[i], v.fields[keys[i]], limits, depth + 1)
    ensures Child([LeftBrace] + Members(keys, parts, true) + [RightBrace], v, limits, depth)
  {
    hide Members;
    assert Enumerates(keys, v.fields);
    forall k | k in v.fields ensures k != "" && WellFormed(v.fields[k]) && Within(v.fields[k], limits, depth + 1) {
      var i :| 0 <= i < |keys| && keys[i] == k;
      assert Child(parts[i], v.fields[keys[i]], limits, depth + 1);
    }
    assert forall i :: 0 <= i < |keys| ==> Renders(parts[i], v.fields[keys[i]]);
  }

  lemma ArrayIsChild(parts: seq<seq<Token>>, v: Json, limits: Limits, depth: int)
    requires v.Array? && |parts| == |v.items| && DepthOk(limits, depth) && SizeOk(limits, |v.items|)
    requires forall i :: 0 <= i < |parts| ==> Child(parts[i], v.items[i], limits, depth + 1)
    ensures Child([LeftBracket] + Elements(parts, true) + [RightBracket], v, limits, depth)
  {
    hide Elements;
    assert forall i :: 0 <= i < |parts| ==> Renders(parts[i], v.items[i]);
  }

  /** What one successful step over a member means. */
  lemma MembersStep(ts: seq<Token>, limits: Limits, depth: int, found: map<string, Json>, first: bool)
    returns (key: string, us: seq<Token>)
    requires DecodeMembers(ts, limits, depth, found, first).Some? && ts[0] != RightBrace
    ensures ts == Separator(first) + [StringToken(key), Colon] + us && key != "" && key !in found
    ensures SizeOk(limits, |found| + 1) && DecodeValue(us, limits, depth + 1).Some?
    ensures var child := DecodeValue(us, limits, depth + 1).value;
            DecodeMembers(ts, limits, depth, found, first) ==
            DecodeMembers(child.rest, limits, depth, found[key := child.value], false)
  {
    hide DecodeValue;
    var vs := AfterSeparator(ts, first).value;
    key, us := vs[0].text, vs[2..];
    assert vs == [StringToken(key), Colon] + us;
  }

  lemma {:induction false} MembersAreSound(ts: seq<Token>, limits: Limits, depth: int, found: map<string, Json>,
                                           first: bool)
    returns (keys: seq<string>, parts: seq<seq<Token>>)
    requires DecodeMembers(ts, limits, depth, found, first).Some? && SizeOk(limits, |found|)
    ensures |parts| == |keys| && DecodeMembers(ts, limits, depth, found, first).value.value.Object?
    ensures var parsed := DecodeMembers(ts, limits, depth, found, first).value;
            var fields := parsed.value.fields;
            && ts == Members(keys, parts, first) + [RightBrace] + parsed.rest
            && SizeOk(limits, |fields|) && Extends(found, keys, fields)
            && forall i :: 0 <= i < |keys| ==>
                 keys[i] in fields && keys[i] != "" && Child(parts[i], fields[keys[i]], limits, depth + 1)
    decreases |ts|, 1
  {
    hide DecodeMembers, DecodeValue, Child, Extends, Members;
    if |ts| > 0 && ts[0] == RightBrace {
      MembersEnd(ts, limits, depth, found, first);
      return [], [];
    }
    var key, us := MembersStep(ts, limits, depth, found, first);
    var child := DecodeValue(us, limits, depth + 1).value;
    var used := DecodeIsSound(us, limits, depth + 1);
    var restKeys, restParts := MembersAreSound(child.rest, limits, depth, found[key := child.value], false);
    keys, parts := [key] + restKeys, [used] + restParts;
    var parsed := DecodeMembers(ts, limits, depth, found, first).value;
    MembersOfOne(key, used, restKeys, restParts, first);
    Reassemble(ts, Separator(first) + [StringToken(key), Colon], us, used, child.rest,
               Members(restKeys, restParts, false), [RightBrace], parsed.rest);
    ExtendsByOne(found, key, child.value, restKeys, parsed.value.fields);
    forall i | 0 <= i < |keys|
      ensures keys[i] in parsed.value.fields && keys[i] != "" &&
              Child(parts[i], parsed.value.fields[keys[i]], limits, depth + 1)
    {
      if i > 0 {
        assert keys[i] == restKeys[i - 1] && parts[i] == restParts[i - 1];
      }
    }
  }

  lemma MembersEnd(ts: seq<Token>, limits: Limits, depth: int, found: map<string, Json>, first: bool)
    requires ts != [] && ts[0] == RightBrace
    ensures DecodeMembers(ts, limits, depth, found, first) == Some(Parsed(Object(found), ts[1..]))
    ensures ts == Members([], [], first) + [RightBrace] + ts[1..] && Extends(found, [], found)
  {
  }

  lemma Reassemble(ts: seq<Token>, head: seq<Token>, us: seq<Token>, used: seq<Token>, vs: seq<Token>, more: seq<Token>,
                   close: seq<Token>, rest: seq<Token>)
    requires ts == head + us && us == used + vs && vs == more + close + rest
    ensures ts == head + used + more + close + rest
  {
  }

  lemma MembersOfOne(key: string, part: seq<Token>, keys: seq<string>, parts: seq<seq<Token>>, first: bool)
    requires |keys| == |parts|
    ensures Members([key] + keys, [part] + parts, first) ==
            Separator(first) + [StringToken(key), Colon] + part + Members(keys, parts, false)
  {
    assert ([key] + keys)[1..] == keys && ([part] + parts)[1..] == parts;
  }

  /** The fields are the ones found before and those of the keys, which are new. */
  predicate Extends(found: map<string, Json>, keys: seq<string>, fields: map<string, Json>) {
    && Distinct(keys) && (forall k <- keys :: k !in found && k in fields)
    && (forall k <- found :: k in fields && fields[k] == found[k])
    && forall k <- fields :: k in found || k in keys
  }

  lemma ExtendsByOne(found: map<string, Json>, key: string, v: Json, keys: seq<string>, fields: map<string, Json>)
    requires key !in found && Extends(found[key := v], keys, fields)
    ensures Extends(found, [key] + keys, fields) && key in fields && fields[key] == v
  {
    var all := [key] + keys;
    assert key in found[key := v];
    assert forall k <- keys :: k != key && k !in found;
    forall k | k in fields ensures k in found || k in all {
      assert k in found[key := v] || k in keys;
    }
  }

  lemma ElementsStep(ts: seq<Token>, limits: Limits, depth: int, found: seq<Json>, first: bool) returns (us: seq<Token>)
    requires DecodeElements(ts, limits, depth, found, first).Some? && ts[0] != RightBracket
    ensures ts == Separator(first) + us && SizeOk(limits, |found| + 1) && DecodeValue(us, limits, depth + 1).Some?
    ensures var child := DecodeValue(us, limits, depth + 1).value;
            DecodeElements(ts, limits, depth, found, first) ==
            DecodeElements(child.rest, limits, depth, found + [child.value], false)
  {
    hide DecodeValue;
    us := AfterSeparator(ts, first).value;
  }

  lemma ElementsEnd(ts: seq<Token>, limits: Limits, depth: int, found: seq<Json>, first: bool)
    requires ts != [] && ts[0] == RightBracket
    ensures DecodeElements(ts, limits, depth, found, first) == Some(Parsed(Array(found), ts[1..]))
    ensures ts == Elements([], first) + [RightBracket] + ts[1..] && found[..|found|] == found
  {
  }

  lemma ElementsOfOne(part: seq<Token>, parts: seq<seq<Token>>, first: bool)
    ensures Elements([part] + parts, first) == Separator(first) + part + Elements(parts, false)
  {
    assert ([part] + parts)[1..] == parts;
  }

  lemma PrefixOfOne(found: seq<Json>, v: Json, items: seq<Json>)
    requires |found| < |items| && items[..|found| + 1] == found + [v]
    ensures items[|found|] == v && items[..|found|] == found
  {
    assert items[|found|] == items[..|found| + 1][|found|];
    assert items[..|found|] == items[..|found| + 1][..|found|];
  }

  lemma {:induction false} ElementsAreSound(ts: seq<Token>, limits: Limits, depth: int, found: seq<Json>, first: bool)
    returns (parts: seq<seq<Token>>)
    requires DecodeElements(ts, limits, depth, found, first).Some? && SizeOk(limits, |found|)
    ensures DecodeElements(ts, limits, depth, found, first).value.value.Array?
    ensures var parsed := DecodeElements(ts, limits, depth, found, first).value;
            var items := parsed.value.items;
            && ts == Elements(parts, first) + [RightBracket] + parsed.rest
            && SizeOk(limits, |items|) && |items| == |found| + |parts| && items[..|found|] == found
            && forall i :: 0 <= i < |parts| ==> Child(parts[i], items[|found| + i], limits, depth + 1)
    decreases |ts|, 1
  {
    hide DecodeElements, DecodeValue, Child, Elements;
    if |ts| > 0 && ts[0] == RightBracket {
      ElementsEnd(ts, limits, depth, found, first);
      return [];
    }
    var us := ElementsStep(ts, limits, depth, found, first);
    var child := DecodeValue(us, limits, depth + 1).value;
    var used := DecodeIsSound(us, limits, depth + 1);
    var rest := ElementsAreSound(child.rest, limits, depth, found + [child.value], false);
    parts := [used] + rest;
    var parsed := DecodeElements(ts, limits, depth, found, first).value;
    var items := parsed.value.items;
    ElementsOfOne(used, rest, first);
    Reassemble(ts, Separator(first), us, used, child.rest, Elements(rest, false), [RightBracket], parsed.rest);
    PrefixOfOne(found, child.value, items);
    forall i | 0 <= i < |parts| ensures Child(parts[i], items[|found| + i], limits, depth + 1) {
      if i > 0 {
        assert parts[i] == rest[i - 1] && items[|found| + i] == items[|found + [child.value]| + (i - 1)];
      }
    }
  }

  /** A text of a value starts with a token that could close nothing. */
  lemma ChildStarts(part: seq<Token>, v: Json, limits: Limits, depth: int)
    requires Child(part, v, limits, depth)
    ensures part != [] && part[0] !in {RightBrace, RightBracket, Comma, Colon, Malformed}
  {
  }

  /** Every text of a well-formed value within the limits is decoded to that value,
      whatever follows it. */
  lemma {:induction false} DecodeIsComplete(used: seq<Token>, v: Json, limits: Limits, depth: int, rest: seq<Token>)
    requires Child(used, v, limits, depth)
    ensures DecodeValue(used + rest, limits, depth) == Some(Parsed(v, rest))
    decreases v, 1, 0
  {
    hide DecodeMembers, DecodeElements, Members, Elements, Child, Enumerates, Restrict, DecodeValue;
    if v.Array? {
      var parts := PartsOfArray(used, v, limits, depth);
      ElementsAreComplete(v, parts, 0, limits, depth, rest);
      assert parts[0..] == parts && v.items[..0] == [];
      OpensArray(used, Elements(parts, true), rest, limits, depth);
    } else if v.Object? {
      var keys, parts := PartsOfObject(used, v, limits, depth);
      MembersAreComplete(v, keys, parts, 0, limits, depth, rest);
      assert keys[0..] == keys && parts[0..] == parts && keys[..0] == [];
      RestrictNone(v.fields);
      OpensObject(used, Members(keys, parts, true), rest, limits, depth);
    } else {
      ScalarIsComplete(used, v, limits, depth, rest);
    }
  }

  lemma ScalarIsComplete(used: seq<Token>, v: Json, limits: Limits, depth: int, rest: seq<Token>)
    requires Child(used, v, limits, depth) && !v.Array? && !v.Object?
    ensures DecodeValue(used + rest, limits, depth) == Some(Parsed(v, rest))
  {
    hide DecodeMembers, DecodeElements;
    assert |used| == 1 && (used + rest)[1..] == rest;
  }

  lemma OpensArray(used: seq<Token>, inside: seq<Token>, rest: seq<Token>, limits: Limits, depth: int)
    requires used == [LeftBracket] + inside + [RightBracket] && DepthOk(limits, depth)
    ensures DecodeValue(used + rest, limits, depth) ==
            DecodeElements(inside + [RightBracket] + rest, limits, depth, [], true)
  {
    hide DecodeMembers, DecodeElements;
    assert (used + rest)[1..] == inside + [RightBracket] + rest;
  }

  lemma OpensObject(used: seq<Token>, inside: seq<Token>, rest: seq<Token>, limits: Limits, depth: int)
    requires used == [LeftBrace] + inside + [RightBrace] && DepthOk(limits, depth)
    ensures DecodeValue(used + rest, limits, depth) ==
            DecodeMembers(inside + [RightBrace] + rest, limits, depth, map[], true)
  {
    hide DecodeMembers, DecodeElements;
    assert (used + rest)[1..] == inside + [RightBrace] + rest;
  }

  lemma PartsOfArray(used: seq<Token>, v: Json, limits: Limits, depth: int) returns (parts: seq<seq<Token>>)
    requires Child(used, v, limits, depth) && v.Array?
    ensures |parts| == |v.items| && used == [LeftBracket] + Elements(parts, true) + [RightBracket]
    ensures DepthOk(limits, depth) && SizeOk(limits, |v.items|)
    ensures forall i :: 0 <= i < |parts| ==> Child(parts[i], v.items[i], limits, depth + 1)
  {
    hide Elements;
    parts :| |parts| == |v.items| && used == [LeftBracket] + Elements(parts, true) + [RightBracket] &&
             forall i :: 0 <= i < |v.items| ==> Renders(parts[i], v.items[i]);
  }

  lemma PartsOfObject(used: seq<Token>, v: Json, limits: Limits, depth: int)
    returns (keys: seq<string>, parts: seq<seq<Token>>)
    requires Child(used, v, limits, depth) && v.Object?
    ensures |parts| == |keys| && Enumerates(keys, v.fields)
    ensures used == [LeftBrace] + Members(keys, parts, true) + [RightBrace]
    ensures DepthOk(limits, depth) && SizeOk(limits, |v.fields|)
    ensures forall i :: 0 <= i < |keys| ==>
              keys[i] in v.fields && keys[i] != "" && Child(parts[i], v.fields[keys[i]], limits, depth + 1)
  {
    hide Members;
    keys, parts :| |parts| == |keys| && Enumerates(keys, v.fields) &&
                   used == [LeftBrace] + Members(keys, parts, true) + [RightBrace] &&
                   forall i :: 0 <= i < |keys| ==> keys[i] in v.fields && Renders(parts[i], v.fields[keys[i]]);
  }

  lemma RestrictNone(fields: map<string, Json>)
    ensures Restrict(fields, []) == map[]
  {
  }

  lemma {:induction false} ElementsAreComplete(v: Json, parts: seq<seq<Token>>, i: nat, limits: Limits, depth: int,
                                               rest: seq<Token>)
    requires v.Array? && |parts| == |v.items| && i <= |parts| && SizeOk(limits, |v.items|)
    requires forall k :: 0 <= k < |parts| ==> Child(parts[k], v.items[k], limits, depth + 1)
    ensures DecodeElements(Elements(parts[i..], i == 0) + [RightBracket] + rest, limits, depth, v.items[..i], i == 0) ==
            Some(Parsed(v, rest))
    decreases v, 0, |parts| - i
  {
    hide DecodeElements, DecodeValue, Elements, Child;
    var ts := Elements(parts[i..], i == 0) + [RightBracket] + rest;
    if i == |parts| {
      assert parts[i..] == [];
      ElementsOfNone(i == 0);
      ElementsEnd(ts, limits, depth, v.items[..i], i == 0);
      assert v.items[..i] == v.items && ts[1..] == rest;
    } else {
      var tail := Elements(parts[i + 1..], false) + [RightBracket] + rest;
      ElementsAreComplete(v, parts, i + 1, limits, depth, rest);
      DecodeIsComplete(parts[i], v.items[i], limits, depth + 1, tail);
      assert parts[i..] == [parts[i]] + parts[i + 1..];
      ElementsOfOne(parts[i], parts[i + 1..], i == 0);
      assert ts == Separator(i == 0) + (parts[i] + tail);
      ChildStarts(parts[i], v.items[i], limits, depth + 1);
      assert (parts[i] + tail)[0] == parts[i][0];
      ElementsForward(ts, parts[i] + tail, v.items[i], tail, limits, depth, v.items[..i], i == 0);
      assert v.items[..i + 1] == v.items[..i] + [v.items[i]];
    }
  }

  lemma ElementsOfNone(first: bool)
    ensures Elements([], first) == []
  {
  }

  lemma ElementsForward(ts: seq<Token>, us: seq<Token>, v: Json, tail: seq<Token>, limits: Limits, depth: int,
                        found: seq<Json>, first: bool)
    requires ts == Separator(first) + us && us != [] && us[0] != RightBracket && SizeOk(limits, |found| + 1)
    requires DecodeValue(us, limits, depth + 1) == Some(Parsed(v, tail))
    ensures DecodeElements(ts, limits, depth, found, first) == DecodeElements(tail, limits, depth, found + [v], false)
  {
    hide DecodeValue;
    assert first ==> ts == us;
    assert !first ==> ts[1..] == us;
    assert AfterSeparator(ts, first) == Some(us);
  }

  function Restrict(fields: map<string, Json>, keys: seq<string>): map<string, Json> {
    map k | k in fields && k in keys :: fields[k]
  }

  lemma RestrictStep(fields: map<string, Json>, keys: seq<string>, i: nat)
    requires i < |keys| && Distinct(keys) && keys[i] in fields
    ensures keys[i] !in Restrict(fields, keys[..i])
    ensures Restrict(fields, keys[..i + 1]) == Restrict(fields, keys[..i])[keys[i] := fields[keys[i]]]
  {
    assert keys[..i + 1] == keys[..i] + [keys[i]];
    assert keys[i] !in keys[..i];
  }

  lemma {:induction false} RestrictCount(fields: map<string, Json>, keys: seq<string>, i: nat)
    requires i <= |keys| && Distinct(keys) && forall k <- keys :: k in fields
    ensures |Restrict(fields, keys[..i])| == i
  {
    hide Distinct;
    if i > 0 {
      RestrictCount(fields, keys, i - 1);
      assert keys[i - 1] in keys;
      RestrictStep(fields, keys, i - 1);
      AddKey(Restrict(fields, keys[..i - 1]), keys[i - 1], fields[keys[i - 1]]);
    } else {
      assert keys[..0] == [];
      RestrictNone(fields);
    }
  }

  lemma AddKey(found: map<string, Json>, key: string, v: Json)
    requires key !in found
    ensures |found[key := v]| == |found| + 1
  {
    assert found[key := v].Keys == found.Keys + {key};
  }

  lemma RestrictAll(fields: map<string, Json>, keys: seq<string>)
    requires Enumerates(keys, fields)
    ensures Restrict(fields, keys) == fields && |fields| == |keys|
  {
    assert keys[..|keys|] == keys;
    RestrictCount(fields, keys, |keys|);
    assert Restrict(fields, keys) == fields;
  }

  lemma {:induction false} MembersAreComplete(v: Json, keys: seq<string>, parts: seq<seq<Token>>, i: nat,
                                              limits: Limits,
                                              depth: int, rest: seq<Token>)
    requires v.Object? && |parts| == |keys| && i <= |parts| && SizeOk(limits, |v.fields|) && Enumerates(keys, v.fields)
    requires forall k :: 0 <= k < |parts| ==>
               keys[k] in v.fields && keys[k] != "" && Child(parts[k], v.fields[keys[k]], limits, depth + 1)
    ensures DecodeMembers(Members(keys[i..], parts[i..], i == 0) + [RightBrace] + rest, limits, depth,
                          Restrict(v.fields, keys[..i]), i == 0) == Some(Parsed(v, rest))
    decreases v, 0, |parts| - i
  {
    hide DecodeMembers, DecodeValue, Members, Child, Enumerates, Restrict;
    var ts := Members(keys[i..], parts[i..], i == 0) + [RightBrace] + rest;
    RestrictAll(v.fields, keys);
    EnumeratesMeans(keys, v.fields);
    RestrictCount(v.fields, keys, i);
    if i < |keys| { RestrictStep(v.fields, keys, i); }
    if i == |parts| {
      MembersOfNone(i == 0);
      assert keys[i..] == [] && parts[i..] == [] && keys[..i] == keys;
      MembersEnd(ts, limits, depth, v.fields, i == 0);
      assert ts[1..] == rest;
    } else {
      var tail := Members(keys[i + 1..], parts[i + 1..], false) + [RightBrace] + rest;
      MembersAreComplete(v, keys, parts, i + 1, limits, depth, rest);
      DecodeIsComplete(parts[i], v.fields[keys[i]], limits, depth + 1, tail);
      assert keys[i..] == [keys[i]] + keys[i + 1..] && parts[i..] == [parts[i]] + parts[i + 1..];
      MembersOfOne(keys[i], parts[i], keys[i + 1..], parts[i + 1..], i == 0);
      assert ts == Separator(i == 0) + [StringToken(keys[i]), Colon] + (parts[i] + tail);
      MembersForward(ts, keys[i], parts[i] + tail, v.fields[keys[i]], tail, limits, depth,
                     Restrict(v.fields, keys[..i]), i == 0);
    }
  }

  lemma MembersOfNone(first: bool)
    ensures Members([], [], first) == []
  {
  }

  lemma EnumeratesMeans(keys: seq<string>, fields: map<string, Json>)
    requires Enumerates(keys, fields)
    ensures Distinct(keys) && forall k <- keys :: k in fields
  {
  }

  lemma MembersForward(ts: seq<Token>, key: string, us: seq<Token>, v: Json, tail: seq<Token>, limits: Limits,
                       depth: int,
                       found: map<string, Json>, first: bool)
    requires ts == Separator(first) + [StringToken(key), Colon] + us && key != "" && key !in found
    requires SizeOk(limits, |found| + 1) && DecodeValue(us, limits, depth + 1) == Some(Parsed(v, tail))
    ensures DecodeMembers(ts, limits, depth, found, first) == DecodeMembers(tail, limits, depth, found[key := v], false)
  {
    hide DecodeValue;
    var vs := [StringToken(key), Colon] + us;
    assert vs[2..] == us;
    assert first ==> ts == vs;
    assert !first ==> ts[1..] == vs;
    assert AfterSeparator(ts, first) == Some(vs);
  }
}

/** The canonical text of a value, and of a document. */
module CanonicalJson {
  import opened Wrappers
  import opened JsonModel
  import opened JsonDecoder

  /** Lexicographic order of keys. */
  predicate Before(a: string, b: string) {
    b != "" && (a == "" || a[0] < b[0] || (a[0] == b[0] && Before(a[1..], b[1..])))
  }

  lemma {:induction false} BeforeIsTotal(a: string, b: string)
    ensures a == b || Before(a, b) || Before(b, a)
    ensures !(Before(a, b) && Before(b, a)) && !Before(a, a)
  {
    if a != "" {
      BeforeIsTotal(a[1..], a[1..]);
      if b != "" {
        BeforeIsTotal(a[1..], b[1..]);
        assert a == [a[0]] + a[1..] && b == [b[0]] + b[1..];
      }
    }
  }

  /** One key is before another exactly when it is a proper prefix of it or has the
      smaller character where they first differ. */
  lemma {:induction false} BeforeExactly(a: string, b: string)
    ensures Before(a, b) <==>
              || a < b
              || exists i :: 0 <= i < |a| && i < |b| && a[..i] == b[..i] && a[i] < b[i]
  {
    if a != "" && b != "" && a[0] == b[0] {
      var x, y := a[1..], b[1..];
      BeforeExactly(x, y);
      assert a == [a[0]] + x && b == [b[0]] + y;
      assert x < y <==> a < b;
      if i :| 0 <= i < |x| && i < |y| && x[..i] == y[..i] && x[i] < y[i] {
        assert a[..i + 1] == [a[0]] + x[..i] && b[..i + 1] == [b[0]] + y[..i] && a[i + 1] < b[i + 1];
      }
      if i :| 0 <= i < |a| && i < |b| && a[..i] == b[..i] && a[i] < b[i] {
        assert x[..i - 1] == a[..i][1..] && y[..i - 1] == b[..i][1..] && x[i - 1] < y[i - 1];
      }
    } else if a != "" && b != "" {
      assert a[..0] == b[..0];
      assert forall i :: 0 < i < |a| && i < |b| && a[..i] == b[..i] ==> a[..i][0] == a[0] && b[..i][0] == b[0];
    }
  }

  lemma {:induction false} BeforeIsTransitive(a: string, b: string, c: string)
    requires Before(a, b) && Before(b, c)
    ensures Before(a, c)
  {
    if a != "" && a[0] == b[0] && b[0] == c[0] {
      BeforeIsTransitive(a[1..], b[1..], c[1..]);
    }
  }

  predicate IsLeast(keys: set<string>, k: string) {
    k in keys && forall j <- keys :: j == k || Before(k, j)
  }

  lemma {:induction false} LeastExists(keys: set<string>) returns (k: string)
    requires keys != {}
    ensures IsLeast(keys, k)
  {
    var x :| x in keys;
    var rest := keys - {x};
    assert forall j <- keys :: j == x || j in rest;
    if rest == {} {
      return x;
    }
    var y := LeastExists(rest);
    BeforeIsTotal(x, y);
    k := if Before(y, x) then y else x;
    forall j | j in keys && j != k ensures Before(k, j) {
      if k == x && j != y { BeforeIsTransitive(x, y, j); }
    }
  }

  lemma LeastIsUnique(keys: set<string>, a: string, b: string)
    requires IsLeast(keys, a) && IsLeast(keys, b)
    ensures a == b
  {
    BeforeIsTotal(a, b);
  }

  predicate Ascending(keys: seq<string>) {
    forall i, j :: 0 <= i < j < |keys| ==> Before(keys[i], keys[j])
  }

  /** The keys in ascending order. */
  function SortedKeys(keys: set<string>): (sorted: seq<string>)
    ensures Ascending(sorted) && (forall k <- sorted :: k in keys) && forall k <- keys :: k in sorted
  {
    if keys == {} then [] else
    var k := Least(keys);
    var rest := SortedKeys(keys - {k});
    assert forall j <- keys :: j == k || j in keys - {k};
    [k] + rest
  }

  function Least(keys: set<string>): (k: string)
    requires keys != {}
    ensures IsLeast(keys, k)
  {
    OneLeast(keys);
    var k :| k in keys && IsLeast(keys, k);
    k
  }

  lemma OneLeast(keys: set<string>)
    requires keys != {}
    ensures exists k :: k in keys && IsLeast(keys, k)
    ensures forall a, b :: IsLeast(keys, a) && IsLeast(keys, b) ==> a == b
  {
    var k := LeastExists(keys);
    forall a, b | IsLeast(keys, a) && IsLeast(keys, b) ensures a == b {
      LeastIsUnique(keys, a, b);
    }
  }

  lemma SortedAreDistinct(keys: seq<string>)
    requires Ascending(keys)
    ensures Distinct(keys)
  {
    forall i, j | 0 <= i < j < |keys| ensures keys[i] != keys[j] {
      BeforeIsTotal(keys[i], keys[j]);
    }
  }

  /** The canonical text: members in ascending order of their keys. */
  function Encode(v: Json): seq<Token>
    decreases v
  {
    match v
    case Null => [NullToken]
    case Bool(flag) => [BoolToken(flag)]
    case Number(digits) => [NumberToken(digits)]
    case Text(text) => [StringToken(text)]
    case Array(items) => [LeftBracket] + Elements(EncodeItems(v), true) + [RightBracket]
    case Object(fields) =>
      [LeftBrace] + Members(SortedKeys(fields.Keys), EncodeFields(v, SortedKeys(fields.Keys)), true) + [RightBrace]
  }

  function EncodeItems(v: Json): (parts: seq<seq<Token>>)
    requires v.Array?
    ensures |parts| == |v.items|
    decreases v, 0
  {
    seq(|v.items|, i requires 0 <= i < |v.items| => Encode(v.items[i]))
  }

  function EncodeFields(v: Json, keys: seq<string>): (parts: seq<seq<Token>>)
    requires v.Object? && forall k <- keys :: k in v.fields
    ensures |parts| == |keys|
    decreases v, 0
  {
    seq(|keys|, i requires 0 <= i < |keys| => Encode(v.fields[keys[i]]))
  }

  /** The canonical text of a value is a text of it. */
  lemma {:induction false} EncodeRenders(v: Json)
    ensures Renders(Encode(v), v)
  {
    hide Elements, Members;
    match v {
      case Array(items) =>
        forall i | 0 <= i < |items| ensures Renders(EncodeItems(v)[i], items[i]) {
          EncodeRenders(items[i]);
        }
      case Object(fields) =>
        var keys := SortedKeys(fields.Keys);
        SortedAreDistinct(keys);
        assert Enumerates(keys, fields);
        var parts := EncodeFields(v, keys);
        forall i | 0 <= i < |keys| ensures keys[i] in fields && Renders(parts[i], fields[keys[i]]) {
          assert keys[i] in fields.Keys;
          EncodeRenders(fields[keys[i]]);
        }
      case _ =>
    }
  }

  /** Decoding an encoded value gives the value back, and what followed it. */
  lemma RoundTrip(v: Json, limits: Limits, depth: int, rest: seq<Token>)
    requires WellFormed(v) && Within(v, limits, depth)
    ensures DecodeValue(Encode(v) + rest, limits, depth) == Some(Parsed(v, rest))
  {
    EncodeRenders(v);
    DecodeIsComplete(Encode(v), v, limits, depth, rest);
  }

  /** The decoder accepts exactly the texts of well-formed values within the limits,
      and finds the one value that a text has. */
  lemma DecodesExactly(ts: seq<Token>, limits: Limits, depth: int, v: Json)
    ensures DecodeValue(ts, limits, depth) == Some(Parsed(v, [])) <==>
            Renders(ts, v) && WellFormed(v) && Within(v, limits, depth)
  {
    hide Renders, WellFormed, Within;
    if DecodeValue(ts, limits, depth) == Some(Parsed(v, [])) {
      var used := DecodeIsSound(ts, limits, depth);
      assert used == used + [];
    }
    if Renders(ts, v) && WellFormed(v) && Within(v, limits, depth) {
      DecodeIsComplete(ts, v, limits, depth, []);
      assert ts + [] == ts;
    }
  }

  /** A document: its tokens and its length in bytes. */
  datatype Document = Document(tokens: seq<Token>, bytes: nat)

  /** The length of a text, given how many bytes a string takes when escaped. */
  function Length(ts: seq<Token>, width: string -> nat): nat {
    if ts == [] then 0 else
    Length(ts[..|ts| - 1], width) +
    match ts[|ts| - 1]
    case StringToken(text) => width(text) + 2
    case NumberToken(digits) => |digits|
    case BoolToken(flag) => if flag then 4 else 5
    case NullToken => 4
    case _ => 1
  }

  /** A token as it is written, given how strings are escaped. */
  function Spelled(t: Token, escape: string -> string): string {
    match t
    case LeftBrace => "{"
    case RightBrace => "}"
    case LeftBracket => "["
    case RightBracket => "]"
    case Comma => ","
    case Colon => ":"
    case StringToken(text) => "\"" + escape(text) + "\""
    case NumberToken(digits) => digits
    case BoolToken(flag) => if flag then "true" else "false"
    case NullToken => "null"
    case Malformed => "?" // in no canonical text
  }

  function Written(ts: seq<Token>, escape: string -> string): string {
    if ts == [] then "" else Written(ts[..|ts| - 1], escape) + Spelled(ts[|ts| - 1], escape)
  }

  /** The length is that of the text. */
  lemma {:induction false} LengthIsWritten(ts: seq<Token>, width: string -> nat, escape: string -> string)
    requires forall text :: width(text) == |escape(text)|
    ensures Length(ts, width) == |Written(ts, escape)|
  {
    if ts != [] {
      LengthIsWritten(ts[..|ts| - 1], width, escape);
    }
  }

  /** The canonical form of an object, or nothing. */
  function ObjectBounded(d: Document, limits: Limits, width: string -> nat): Option<Document> {
    if d.bytes == 0 || limits.bytes <= 0 || d.bytes > limits.bytes then None else
    match DecodeValue(d.tokens, limits, 1)
    case None => None
    case Some(parsed) =>
      if !parsed.value.Object? || parsed.rest != [] then None else
      Some(Document(Encode(parsed.value), Length(Encode(parsed.value), width)))
  }

  /** A document is accepted exactly when it is neither empty nor too long and is a text
      of a well-formed object within the limits; its form is then that object's. */
  lemma AcceptedExactly(d: Document, limits: Limits, width: string -> nat)
    ensures ObjectBounded(d, limits, width).Some? <==>
              && 0 < d.bytes <= limits.bytes
              && exists v: Json :: v.Object? && WellFormed(v) && Within(v, limits, 1) && Renders(d.tokens, v)
    ensures forall v: Json :: ObjectBounded(d, limits, width).Some? && WellFormed(v) && Renders(d.tokens, v) ==>
              ObjectBounded(d, limits, width) == Some(Document(Encode(v), Length(Encode(v), width)))
  {
    hide Renders, WellFormed, Within, Encode, Length, DecodeValue;
    if ObjectBounded(d, limits, width).Some? {
      var v := DecodeValue(d.tokens, limits, 1).value.value;
      DecodesExactly(d.tokens, limits, 1, v);
      forall u: Json | WellFormed(u) && Renders(d.tokens, u) ensures u == v {
        TextHasOneValue(d.tokens, u, v);
      }
    }
    if v: Json :| v.Object? && WellFormed(v) && Within(v, limits, 1) && Renders(d.tokens, v) {
      DecodesExactly(d.tokens, limits, 1, v);
    }
  }

  /** Two accepted documents have the same canonical form exactly when they are texts
      of the same value. */
  lemma SameFormExactlyWhenSameValue(a: Document, b: Document, limits: Limits, width: string -> nat)
    requires ObjectBounded(a, limits, width).Some? && ObjectBounded(b, limits, width).Some?
    ensures ObjectBounded(a, limits, width) == ObjectBounded(b, limits, width) <==>
            exists v :: WellFormed(v) && Renders(a.tokens, v) && Renders(b.tokens, v)
  {
    hide Renders, WellFormed, Within, Encode, Length, DecodeValue;
    var v, w := DecodeValue(a.tokens, limits, 1).value.value, DecodeValue(b.tokens, limits, 1).value.value;
    DecodesExactly(a.tokens, limits, 1, v);
    DecodesExactly(b.tokens, limits, 1, w);
    if ObjectBounded(a, limits, width) == ObjectBounded(b, limits, width) {
      EncodeIsInjective(v, w, limits);
    }
    if u :| WellFormed(u) && Renders(a.tokens, u) && Renders(b.tokens, u) {
      TextHasOneValue(a.tokens, u, v);
      TextHasOneValue(b.tokens, u, w);
    }
  }

  lemma EncodeIsInjective(v: Json, w: Json, limits: Limits)
    requires WellFormed(v) && WellFormed(w) && Within(v, limits, 1) && Within(w, limits, 1) && Encode(v) == Encode(w)
    ensures v == w
  {
    hide WellFormed, Within, Encode, DecodeValue;
    RoundTrip(v, limits, 1, []);
    RoundTrip(w, limits, 1, []);
  }

  const UNLIMITED := Limits(0, 0, 0)

  lemma {:induction false} AnythingIsWithinNoLimits(v: Json, depth: int)
    ensures Within(v, UNLIMITED, depth)
  {
    match v {
      case Array(items) =>
        forall i | 0 <= i < |items| ensures Within(items[i], UNLIMITED, depth + 1) {
          AnythingIsWithinNoLimits(items[i], depth + 1);
        }
      case Object(fields) =>
        forall k | k in fields ensures Within(fields[k], UNLIMITED, depth + 1) {
          AnythingIsWithinNoLimits(fields[k], depth + 1);
        }
      case _ =>
    }
  }

  /** A text is the text of at most one well-formed value. */
  lemma TextHasOneValue(ts: seq<Token>, u: Json, v: Json)
    requires WellFormed(u) && WellFormed(v) && Renders(ts, u) && Renders(ts, v)
    ensures u == v
  {
    hide Renders, WellFormed, Within, DecodeValue;
    AnythingIsWithinNoLimits(u, 1);
    AnythingIsWithinNoLimits(v, 1);
    DecodesExactly(ts, UNLIMITED, 1, u);
    DecodesExactly(ts, UNLIMITED, 1, v);
  }

  /** A canonical form is its own canonical form, exactly when it is not too long:
      escaping may have made it longer than the document it came from. */
  lemma CanonicalIsStableExactly(d: Document, limits: Limits, width: string -> nat)
    requires ObjectBounded(d, limits, width).Some?
    ensures var c := ObjectBounded(d, limits, width).value;
            ObjectBounded(c, limits, width) == Some(c) <==> c.bytes <= limits.bytes
  {
    hide Renders, WellFormed, Within, DecodeValue, Members;
    var v, c := DecodeValue(d.tokens, limits, 1).value.value, ObjectBounded(d, limits, width).value;
    DecodesExactly(d.tokens, limits, 1, v);
    RoundTrip(v, limits, 1, []);
    assert Encode(v) + [] == Encode(v);
    assert c.tokens[|c.tokens| - 1] == RightBrace;
    assert c.bytes > 0;
  }

  /** The source's encoder escapes a less-than sign in six bytes. */
  function EscapedWidth(text: string): nat {
    if text == "<" then 6 else |text|
  }

  /** A document of ten bytes, an object whose one key is a less-than sign, that is
      accepted under a limit of ten bytes and whose canonical form of fifteen bytes is
      not. */
  lemma EscapingLengthens()
    ensures var d := Document([LeftBrace, StringToken("<"), Colon, NullToken, RightBrace], 10);
            var c := Document(d.tokens, 15);
            && ObjectBounded(d, Limits(10, 0, 0), EscapedWidth) == Some(c)
            && ObjectBounded(c, Limits(10, 0, 0), EscapedWidth) == None
  {
    var v := Object(map["<" := Null]);
    var ts := [LeftBrace, StringToken("<"), Colon, NullToken, RightBrace];
    SampleText(v, ts);
    SampleIsWithin(v);
    RoundTrip(v, Limits(10, 0, 0), 1, []);
    assert Encode(v) + [] == ts;
    assert Length(ts, EscapedWidth) == 15 by { SampleLength(ts); }
  }

  lemma SampleIsWithin(v: Json)
    requires v == Object(map["<" := Null])
    ensures WellFormed(v) && Within(v, Limits(10, 0, 0), 1)
  {
  }

  lemma SampleText(v: Json, ts: seq<Token>)
    requires v == Object(map["<" := Null]) && ts == [LeftBrace, StringToken("<"), Colon, NullToken, RightBrace]
    ensures Encode(v) == ts
  {
    hide Distinct, Ascending;
    var keys := SortedKeys(v.fields.Keys);
    assert v.fields.Keys == {"<"} && "<" in keys;
    SortedAreDistinct(keys);
    forall i | 0 <= i < |keys| ensures keys[i] == "<" {
      assert keys[i] in keys && keys[i] in v.fields.Keys;
    }
    if |keys| > 1 {
      RepeatedKeys(keys);
    }
    assert keys == ["<"];
    var parts := EncodeFields(v, keys);
    assert parts == [[NullToken]];
    assert Members(keys[1..], parts[1..], false) == [];
    assert Members(keys, parts, true) == [] + [StringToken("<"), Colon] + [NullToken] + [];
  }

  lemma RepeatedKeys(keys: seq<string>)
    requires |keys| > 1 && keys[0] == keys[1]
    ensures !Distinct(keys)
  {
  }

  lemma SampleLength(ts: seq<Token>)
    requires ts == [LeftBrace, StringToken("<"), Colon, NullToken, RightBrace]
    ensures Length(ts, EscapedWidth) == 15
  {
    assert ts[..4] == [LeftBrace, StringToken("<"), Colon, NullToken];
    assert ts[..4][..3] == [LeftBrace, StringToken("<"), Colon];
    assert ts[..4][..3][..2] == [LeftBrace, StringToken("<")];
    assert ts[..4][..3][..2][..1] == [LeftBrace];
    assert ts[..4][..3][..2][..1][..0] == [];
    assert Length([LeftBrace], EscapedWidth) == 1;
    assert Length([LeftBrace, StringToken("<")], EscapedWidth) == 9;
    assert Length([LeftBrace, StringToken("<"), Colon], EscapedWidth) == 10;
    assert Length([LeftBrace, StringToken("<"), Colon, NullToken], EscapedWidth) == 14;
  }
}

/** The decoder as it runs: a reader that consumes its tokens. */
module JsonReader {
  import opened Wrappers
  import opened JsonModel
  import opened JsonDecoder

  /** What a step of the reader should leave behind. */
  predicate Matches(r: Option<Parsed>, value: Option<Json>, rest: seq<Token>) {
    if r.Some? then value == Some(r.value.value) && rest == r.value.rest else value.None?
  }

  lemma BraceIsNoValue(ts: seq<Token>, limits: Limits, depth: int)
    requires ts != [] && ts[0] == RightBrace
    ensures DecodeValue(ts, limits, depth).None?
  {
  }

  class Reader {
    var tokens: seq<Token>

    constructor (tokens: seq<Token>)
      ensures this.tokens == tokens
    {
      this.tokens := tokens;
    }

    /** More values or members before the closing delimiter. */
    predicate More()
      reads this
    {
      tokens != [] && tokens[0] != RightBrace && tokens[0] != RightBracket
    }

    method Value(limits: Limits, depth: int) returns (value: Option<Json>)
      modifies this
      ensures Matches(DecodeValue(old(tokens), limits, depth), value, tokens)
      decreases |tokens|, 0
    {
      hide DecodeMembers, DecodeElements;
      if !DepthOk(limits, depth) || tokens == [] {
        return None;
      }
      var token := tokens[0];
      tokens := tokens[1..];
      match token {
        case LeftBrace => value := ObjectMembers(limits, depth);
        case LeftBracket => value := ArrayElements(limits, depth);
        case NumberToken(digits) => value := if ValidInteger(digits) then Some(Number(digits)) else None;
        case StringToken(text) => value := Some(Text(text));
        case BoolToken(flag) => value := Some(Bool(flag));
        case NullToken => value := Some(Null);
        case _ => value := None;
      }
    }

    method ObjectMembers(limits: Limits, depth: int) returns (value: Option<Json>)
      modifies this
      ensures Matches(DecodeMembers(old(tokens), limits, depth, map[], true), value, tokens)
      decreases |tokens|, 1
    {
      hide DecodeValue;
      var found: map<string, Json>, first := map[], true;
      while More()
        invariant |tokens| <= |old(tokens)|
        invariant DecodeMembers(old(tokens), limits, depth, map[], true) ==
                  DecodeMembers(tokens, limits, depth, found, first)
        decreases |tokens|
      {
        if !SizeOk(limits, |found| + 1) {
          return None;
        }
        var us := AfterSeparator(tokens, first);
        if us.None? || |us.value| < 2 || !us.value[0].StringToken? || us.value[0].text == "" ||
           us.value[0].text in found || us.value[1] != Colon {
          return None;
        }
        var key := us.value[0].text;
        tokens := us.value[2..];
        var child := Value(limits, depth + 1);
        if child.None? {
          return None;
        }
        found, first := found[key := child.value], false;
      }
      if tokens == [] || tokens[0] != RightBrace {
        return None;
      }
      tokens := tokens[1..];
      return Some(Object(found));
    }

    method ArrayElements(limits: Limits, depth: int) returns (value: Option<Json>)
      modifies this
      ensures Matches(DecodeElements(old(tokens), limits, depth, [], true), value, tokens)
      decreases |tokens|, 1
    {
      hide DecodeValue;
      var found: seq<Json>, first := [], true;
      while More()
        invariant |tokens| <= |old(tokens)|
        invariant first ==> tokens == old(tokens)
        invariant DecodeElements(old(tokens), limits, depth, [], true) ==
                  DecodeElements(tokens, limits, depth, found, first)
        decreases |tokens|, first
      {
        if !SizeOk(limits, |found| + 1) {
          return None;
        }
        var us := AfterSeparator(tokens, first);
        if us.None? {
          return None;
        }
        ghost var before := tokens;
        tokens := us.value;
        var child := Value(limits, depth + 1);
        if child.None? {
          assert DecodeElements(before, limits, depth, found, first).None?;
          return None;
        }
        found, first := found + [child.value], false;
      }
      if tokens == [] || tokens[0] != RightBracket {
        if tokens != [] { BraceIsNoValue(tokens, limits, depth + 1); }
        return None;
      }
      tokens := tokens[1..];
      return Some(Array(found));
    }
  }
}

/** The decimal texts of integers. */
module JsonIntegers {
  import opened JsonModel

  function DigitOf(n: nat): (c: char)
    requires n < 10
    ensures Digit(c)
  {
    '0' + n as char
  }

  function ValueOf(c: char): (n: nat)
    requires Digit(c)
    ensures n < 10
  {
    c as int - '0' as int
  }

  function Digits(n: nat): string
    requires n > 0
  {
    (if n < 10 then "" else Digits(n / 10)) + [DigitOf(n % 10)]
  }

  function Value(s: string): nat
    requires forall i :: 0 <= i < |s| ==> Digit(s[i])
  {
    if s == "" then 0 else 10 * Value(s[..|s| - 1]) + ValueOf(s[|s| - 1])
  }

  /** The text of an integer: no leading zero, no sign but a minus, and no -0. */
  function Decimal(n: int): string {
    if n == 0 then "0" else if n < 0 then "-" + Digits(-n) else Digits(n)
  }

  lemma {:induction false} DigitsOfPositive(n: nat)
    requires n > 0
    ensures Digital(Digits(n)) && Value(Digits(n)) == n
  {
    if n >= 10 {
      DigitsOfPositive(n / 10);
    }
    var before := if n < 10 then "" else Digits(n / 10);
    assert Digits(n)[..|before|] == before;
  }

  lemma {:induction false} PositiveOfDigits(s: string)
    requires Digital(s)
    ensures Value(s) > 0 && Digits(Value(s)) == s
  {
    var n := |s| - 1;
    var before, last := s[..n], s[n];
    assert s == before + [last];
    CharOfValue(last);
    if n > 0 {
      PositiveOfDigits(before);
      LastDigit(Value(before), ValueOf(last));
    } else {
      assert before == "" && Value(before) == 0;
    }
  }

  lemma CharOfValue(c: char)
    requires Digit(c)
    ensures DigitOf(ValueOf(c)) == c && (ValueOf(c) == 0 <==> c == '0')
  {
  }

  lemma LastDigit(a: nat, d: nat)
    requires a > 0 && d < 10
    ensures Digits(10 * a + d) == Digits(a) + [DigitOf(d)]
  {
    assert (10 * a + d) / 10 == a && (10 * a + d) % 10 == d;
  }

  /** The accepted number texts are the decimal texts of the integers, one each. */
  lemma ValidIntegersAreDecimals(t: string)
    ensures ValidInteger(t) <==> exists n :: t == Decimal(n)
  {
    hide Digits, Value;
    if ValidInteger(t) && t != "0" {
      if t[0] == '-' {
        PositiveOfDigits(t[1..]);
        var n: int := Value(t[1..]);
        assert t == ['-'] + t[1..] == Decimal(-n);
      } else {
        PositiveOfDigits(t);
        assert t == Decimal(Value(t));
      }
    } else if t == "0" {
      assert t == Decimal(0);
    }
    if n :| t == Decimal(n) {
      if n != 0 {
        DigitsOfPositive(if n < 0 then -n else n);
        assert n < 0 ==> t[1..] == Digits(-n);
      }
    }
  }

  lemma DecimalIsInjective(m: int, n: int)
    requires Decimal(m) == Decimal(n)
    ensures m == n
  {
    if m != 0 { DigitsOfPositive(if m < 0 then -m else m); }
    if n != 0 { DigitsOfPositive(if n < 0 then -n else n); }
    assert m < 0 ==> Decimal(m)[1..] == Digits(-m);
    assert n < 0 ==> Decimal(n)[1..] == Digits(-n);
  }
}
