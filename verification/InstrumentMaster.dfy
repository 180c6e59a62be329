/** Provider tokens and canonical instruments, mapped to each other over time. */
module InstrumentMaster {
  import opened Wrappers

  type Instant = int
  type InstrumentId = nat

  /** A provider's token names an instrument from one instant up to another. The
      zero instrument identity and the zero time stand for absent ones. */
  datatype Mapping = Mapping(provider: string, token: string, symbol: string, instrument: InstrumentId, from: Instant,
                             until: Instant) {
    predicate Covers(at: Instant) {
      from <= at < until
    }
  }

  datatype Master = Master(instruments: set<InstrumentId>, mappings: seq<Mapping>)

  datatype MasterError = InvalidMaster | AmbiguousMapping | MappingNotFound

  /** The characters of the Unicode property White_Space. */
  predicate Space(c: char) {
    var x := c as int;
    || 0x09 <= x <= 0x0d || x == 0x20 || x == 0x85 || x == 0xa0 || x == 0x1680 || 0x2000 <= x <= 0x200a
    || x == 0x2028 || x == 0x2029 || x == 0x202f || x == 0x205f || x == 0x3000
  }

  function TrimLeft(s: string): string {
    if s != [] && Space(s[0]) then TrimLeft(s[1..]) else s
  }

  function TrimRight(s: string): string {
    if s != [] && Space(s[|s| - 1]) then TrimRight(s[..|s| - 1]) else s
  }

  function Trim(s: string): string {
    TrimRight(TrimLeft(s))
  }

  predicate Blank(s: string) {
    forall i :: 0 <= i < |s| ==> Space(s[i])
  }

  lemma {:induction false} TrimLeftStrips(s: string)
    ensures |TrimLeft(s)| <= |s| && s[|s| - |TrimLeft(s)|..] == TrimLeft(s) && Blank(s[..|s| - |TrimLeft(s)|])
    ensures TrimLeft(s) != "" ==> !Space(TrimLeft(s)[0])
  {
    if s != [] && Space(s[0]) {
      TrimLeftStrips(s[1..]);
      var n := |s| - |TrimLeft(s)|;
      assert s[n..] == s[1..][n - 1..] && s[..n] == [s[0]] + s[1..][..n - 1];
    }
  }

  lemma {:induction false} TrimRightStrips(s: string)
    ensures |TrimRight(s)| <= |s| && s[..|TrimRight(s)|] == TrimRight(s) && Blank(s[|TrimRight(s)|..])
    ensures TrimRight(s) != "" ==> !Space(TrimRight(s)[|TrimRight(s)| - 1])
  {
    if s != [] && Space(s[|s| - 1]) {
      var t := s[..|s| - 1];
      TrimRightStrips(t);
      assert t[..|TrimRight(t)|] == s[..|TrimRight(t)|];
      assert s[|TrimRight(t)|..] == t[|TrimRight(t)|..] + [s[|s| - 1]];
    }
  }

  /** What is cut off is white space, and no white space is left at either end. So a
      text is trimmed to nothing exactly when it is blank. */
  lemma TrimStrips(s: string)
    ensures var t := Trim(s);
            && (exists i, j :: 0 <= i <= j <= |s| && t == s[i..j] && Blank(s[..i]) && Blank(s[j..]))
            && (t != "" ==> !Space(t[0]) && !Space(t[|t| - 1]))
    ensures Trim(s) == "" <==> Blank(s)
  {
    TrimLeftStrips(s);
    var left := TrimLeft(s);
    TrimRightStrips(left);
    var t, i := TrimRight(left), |s| - |left|;
    assert t == s[i..i + |t|] && s[i + |t|..] == left[|t|..];
    if t == "" {
      assert s == s[..i] + s[i..] && left[0..] == left;
    } else {
      assert s[i] == t[0];
    }
  }

  predicate MappingOk(m: Mapping) {
    && Trim(m.provider) != "" && Trim(m.token) != "" && m.instrument != 0 && m.from != 0 && m.until > m.from
    && Trim(m.symbol) != ""
  }

  lemma MappingOkMeans(m: Mapping)
    ensures MappingOk(m) <==>
              && !Blank(m.provider) && !Blank(m.token) && !Blank(m.symbol)
              && m.instrument != 0 && 0 != m.from < m.until
  {
    hide Trim, Blank;
    TrimStrips(m.provider);
    TrimStrips(m.token);
    TrimStrips(m.symbol);
  }

  predicate Overlap(a: Mapping, b: Mapping) {
    a.from < b.until && b.from < a.until
  }

  /** Two mappings that no master may hold together. */
  predicate Clash(a: Mapping, b: Mapping) {
    a.provider == b.provider && Overlap(a, b) && (a.token == b.token || a.instrument == b.instrument)
  }

  predicate Clashing(ms: seq<Mapping>) {
    exists i, j :: 0 <= i < j < |ms| && Clash(ms[i], ms[j])
  }

  predicate WellFormed(instruments: seq<InstrumentId>, ms: seq<Mapping>) {
    && instruments != [] && 0 !in instruments
    && (forall i, j :: 0 <= i < j < |instruments| ==> instruments[i] != instruments[j])
    && forall i :: 0 <= i < |ms| ==> MappingOk(ms[i]) && ms[i].instrument in instruments
  }

  /** What every constructed master satisfies. */
  predicate Consistent(m: Master) {
    && (forall i :: 0 <= i < |m.mappings| ==> MappingOk(m.mappings[i]) && m.mappings[i].instrument in m.instruments)
    && !Clashing(m.mappings)
  }

  method New(asOf: Instant, instruments: seq<InstrumentId>, mappings: seq<Mapping>)
    returns (r: Result<Master, MasterError>)
    ensures r == Err(InvalidMaster) <==> asOf == 0 || !WellFormed(instruments, mappings)
    ensures r != Err(InvalidMaster) <==>
              && asOf != 0 && instruments != [] && 0 !in instruments
              && (forall i, j :: 0 <= i < j < |instruments| ==> instruments[i] != instruments[j])
              && forall i :: 0 <= i < |mappings| ==>
                   && !Blank(mappings[i].provider) && !Blank(mappings[i].token) && !Blank(mappings[i].symbol)
                   && mappings[i].instrument in instruments && 0 != mappings[i].from < mappings[i].until
    ensures r == Err(AmbiguousMapping) <==> asOf != 0 && WellFormed(instruments, mappings) && Clashing(mappings)
    ensures r != Err(MappingNotFound)
    ensures r.Ok? ==> Consistent(r.value) && r.value == Master((set i | i in instruments), mappings)
  {
    hide MappingOk, Clash, Blank;
    forall i | 0 <= i < |mappings|
      ensures MappingOk(mappings[i]) <==>
                && !Blank(mappings[i].provider) && !Blank(mappings[i].token) && !Blank(mappings[i].symbol)
                && mappings[i].instrument != 0 && 0 != mappings[i].from < mappings[i].until
    {
      MappingOkMeans(mappings[i]);
    }
    if asOf == 0 || |instruments| == 0 {
      return Err(InvalidMaster);
    }
    var byId: set<InstrumentId> := {};
    for i := 0 to |instruments|
      invariant byId == set k | k in instruments[..i]
      invariant 0 !in byId && forall j, k :: 0 <= j < k < i ==> instruments[j] != instruments[k]
    {
      if instruments[i] == 0 || instruments[i] in byId {
        return Err(InvalidMaster);
      }
      byId := byId + {instruments[i]};
    }
    assert byId == set k | k in instruments;
    for i := 0 to |mappings|
      invariant forall k :: 0 <= k < i ==> MappingOk(mappings[k]) && mappings[k].instrument in byId
    {
      if !MappingOk(mappings[i]) || mappings[i].instrument !in byId {
        return Err(InvalidMaster);
      }
    }
    for left := 0 to |mappings|
      invariant forall i, j :: 0 <= i < left && i < j < |mappings| ==> !Clash(mappings[i], mappings[j])
    {
      for right := left + 1 to |mappings|
        invariant forall j :: left < j < right ==> !Clash(mappings[left], mappings[j])
      {
        if Clash(mappings[left], mappings[right]) {
          return Err(AmbiguousMapping);
        }
      }
    }
    return Ok(Master(byId, mappings));
  }

  /** At this instant the provider's token stands for the instrument. */
  predicate Links(m: Master, provider: string, token: string, id: InstrumentId, at: Instant) {
    exists k :: 0 <= k < |m.mappings| && m.mappings[k].provider == provider && m.mappings[k].token == token &&
                m.mappings[k].instrument == id && m.mappings[k].Covers(at)
  }

  /** Two mappings in force at one instant overlap; two that overlap are both in
      force at some instant. */
  lemma OverlapIsCommonInstant(a: Mapping, b: Mapping)
    requires MappingOk(a) && MappingOk(b)
    ensures Overlap(a, b) <==> exists at :: a.Covers(at) && b.Covers(at)
  {
    if Overlap(a, b) {
      var at := if a.from > b.from then a.from else b.from;
      assert a.Covers(at) && b.Covers(at);
    }
  }

  lemma MeetingMappingsAreOne(m: Master, i: nat, j: nat, at: Instant)
    requires Consistent(m) && i < |m.mappings| && j < |m.mappings|
    requires m.mappings[i].provider == m.mappings[j].provider && m.mappings[i].Covers(at) && m.mappings[j].Covers(at)
    requires m.mappings[i].token == m.mappings[j].token || m.mappings[i].instrument == m.mappings[j].instrument
    ensures i == j
  {
    assert Clash(m.mappings[i], m.mappings[j]) && Clash(m.mappings[j], m.mappings[i]);
  }

  /** In every consistent master, at every instant, for every provider, tokens and
      instruments are related one to one. */
  lemma LinksAreOneToOne(m: Master, provider: string, t: string, u: string, i: InstrumentId, j: InstrumentId,
                         at: Instant)
    requires Consistent(m) && Links(m, provider, t, i, at) && Links(m, provider, u, j, at)
    ensures t == u <==> i == j
  {
    var a :| 0 <= a < |m.mappings| && m.mappings[a].provider == provider && m.mappings[a].token == t &&
             m.mappings[a].instrument == i && m.mappings[a].Covers(at);
    var b :| 0 <= b < |m.mappings| && m.mappings[b].provider == provider && m.mappings[b].token == u &&
             m.mappings[b].instrument == j && m.mappings[b].Covers(at);
    if t == u || i == j {
      MeetingMappingsAreOne(m, a, b, at);
    }
  }

  /** The check is exact: well-formed mappings clash exactly when at some instant two
      of them would make a token or an instrument ambiguous. */
  lemma ClashIsExactlyAmbiguity(ms: seq<Mapping>)
    requires forall i :: 0 <= i < |ms| ==> MappingOk(ms[i])
    ensures Clashing(ms) <==>
              exists i, j, at :: 0 <= i < j < |ms| && ms[i].Covers(at) && ms[j].Covers(at) &&
                                 ms[i].provider == ms[j].provider &&
                                 (ms[i].token == ms[j].token || ms[i].instrument == ms[j].instrument)
  {
    hide MappingOk;
    if Clashing(ms) {
      var i, j :| 0 <= i < j < |ms| && Clash(ms[i], ms[j]);
      OverlapIsCommonInstant(ms[i], ms[j]);
      var at :| ms[i].Covers(at) && ms[j].Covers(at);
    }
    if i, j, at :| 0 <= i < j < |ms| && ms[i].Covers(at) && ms[j].Covers(at) && ms[i].provider == ms[j].provider &&
                   (ms[i].token == ms[j].token || ms[i].instrument == ms[j].instrument) {
      OverlapIsCommonInstant(ms[i], ms[j]);
      assert Clash(ms[i], ms[j]);
    }
  }

  /** From token to instrument. Never ambiguous. */
  method Resolve(m: Master, provider: string, token: string, at: Instant) returns (r: Result<InstrumentId, MasterError>)
    requires Consistent(m)
    ensures r.Ok? ==> r.value != 0 && Links(m, provider, Trim(token), r.value, at)
    ensures r.Err? ==> r.error == MappingNotFound && forall id :: !Links(m, provider, Trim(token), id, at)
  {
    hide Trim, Clashing;
    var trimmed := Trim(token);
    var found: InstrumentId := 0;
    ghost var where := 0;
    for k := 0 to |m.mappings|
      invariant found == 0 ==> forall j :: 0 <= j < k ==> !Matches(m.mappings[j], provider, trimmed, at)
      invariant found != 0 ==> 0 <= where < k && Matches(m.mappings[where], provider, trimmed, at) &&
                               m.mappings[where].instrument == found
    {
      if Matches(m.mappings[k], provider, trimmed, at) {
        if found != 0 && found != m.mappings[k].instrument {
          MeetingMappingsAreOne(m, where, k, at);
          assert false;
        }
        found, where := m.mappings[k].instrument, k;
      }
    }
    return if found == 0 then Err(MappingNotFound) else Ok(found);
  }

  predicate Matches(m: Mapping, provider: string, token: string, at: Instant) {
    m.provider == provider && m.token == token && m.Covers(at)
  }

  /** From instrument to mapping. Never ambiguous. */
  method ResolveInstrument(m: Master, provider: string, id: InstrumentId, at: Instant)
    returns (r: Result<Mapping, MasterError>)
    requires Consistent(m)
    ensures r.Ok? ==>
              && r.value in m.mappings && r.value.provider == provider && r.value.instrument == id
              && r.value.Covers(at)
    ensures r.Ok? ==> Links(m, provider, r.value.token, id, at)
    ensures r.Err? ==> r.error == MappingNotFound && forall token :: !Links(m, provider, token, id, at)
  {
    hide Trim, Clashing;
    TrimOfEmpty();
    var found: Option<Mapping> := None;
    ghost var where := 0;
    for k := 0 to |m.mappings|
      invariant found.None? ==> forall j :: 0 <= j < k ==>
                  !(m.mappings[j].provider == provider && m.mappings[j].instrument == id && m.mappings[j].Covers(at))
      invariant found.Some? ==>
                  && 0 <= where < k && found.value == m.mappings[where] && found.value.provider == provider
                  && found.value.instrument == id && found.value.Covers(at) && found.value.token != ""
    {
      if m.mappings[k].provider != provider || m.mappings[k].instrument != id || !m.mappings[k].Covers(at) {
        continue;
      }
      if found.Some? && found.value.token != "" {
        MeetingMappingsAreOne(m, where, k, at);
        assert false;
      }
      found, where := Some(m.mappings[k]), k;
    }
    if found.None? || found.value.token == "" {
      return Err(MappingNotFound);
    }
    return Ok(found.value);
  }

  lemma TrimOfEmpty()
    ensures Trim("") == ""
  {
  }

  /** The two lookups are inverse, exactly for tokens stored without surrounding
      white space: the token lookup trims what it is given, not what is stored. */
  lemma RoundTripExactly(m: Master, k: nat, at: Instant)
    requires Consistent(m) && k < |m.mappings| && m.mappings[k].Covers(at)
    ensures var x := m.mappings[k];
            Links(m, x.provider, Trim(x.token), x.instrument, at) <==> Trim(x.token) == x.token
  {
    var x := m.mappings[k];
    assert Links(m, x.provider, x.token, x.instrument, at);
    if Links(m, x.provider, Trim(x.token), x.instrument, at) {
      LinksAreOneToOne(m, x.provider, x.token, Trim(x.token), x.instrument, x.instrument, at);
    }
  }

  /** A master that is accepted although its only token starts with a space: from the
      instrument the lookup finds the token, from the token it finds nothing. */
  lemma PaddedTokenIsLost()
    ensures var mappings := [Mapping("P", " A", "S", 1, 1, 10)];
            var m := Master({1}, mappings);
            && WellFormed([1], mappings) && !Clashing(mappings) && Consistent(m)
            && Links(m, "P", " A", 1, 5) && forall id :: !Links(m, "P", Trim(" A"), id, 5)
  {
    assert " A"[1..] == "A" && TrimLeft(" A") == "A" && Trim(" A") == "A";
    assert Trim("P") == "P" && Trim("S") == "S";
    var mappings := [Mapping("P", " A", "S", 1, 1, 10)];
    assert mappings[0].provider == "P" && mappings[0].token == " A" && mappings[0].Covers(5);
    assert |" A"| == 2;
  }
}
