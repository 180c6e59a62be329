/** Fills, their canonical order, and the position snapshot they are folded into.

    Instants are integers with 0 for the unset instant. Identities are naturals
    with 0 for the unset identity; a digest compares as its hexadecimal text
    does, so the natural is the number its bytes spell. A checksum is modelled
    by the value it digests, which makes it injective by construction. */
module AccountingModel {
  import opened Wrappers
  import opened Int64

  type Instant = int
  type FillId = nat

  datatype Side = Buy | Sell

  /** A position is one instrument held in one portfolio. */
  datatype PositionId = PositionId(portfolio: nat, instrument: nat) {
    predicate Unset() {
      portfolio == 0 || instrument == 0
    }

    /** Strict order of position identities. The source orders their digests;
        nothing proved here depends on which total order it is. */
    predicate Before(other: PositionId) {
      portfolio < other.portfolio || (portfolio == other.portfolio && instrument < other.instrument)
    }
  }

  datatype OrderingKey = OrderingKey(occurredAt: Instant, receivedAt: Instant, fill: FillId) {
    predicate Unset() {
      occurredAt == 0 || receivedAt == 0 || fill == 0
    }

    /** Three-way comparison: -1, 0 or 1. */
    function Compare(other: OrderingKey): (c: int)
      ensures c == 0 <==> this == other
    {
      if occurredAt < other.occurredAt then -1
      else if occurredAt > other.occurredAt then 1
      else if receivedAt < other.receivedAt then -1
      else if receivedAt > other.receivedAt then 1
      else if fill < other.fill then -1
      else if fill > other.fill then 1
      else 0
    }
  }

  /** The order is by occurrence, then by receipt, then by identity. */
  lemma CompareIsLexicographic(a: OrderingKey, b: OrderingKey)
    ensures a.Compare(b) < 0 <==>
              || a.occurredAt < b.occurredAt
              || (a.occurredAt == b.occurredAt && a.receivedAt < b.receivedAt)
              || (a.occurredAt == b.occurredAt && a.receivedAt == b.receivedAt && a.fill < b.fill)
  {
  }

  /** Compare is a strict total order: antisymmetric and transitive; together
      with its own contract, total. */
  lemma CompareIsTotalOrder(a: OrderingKey, b: OrderingKey, c: OrderingKey)
    ensures a.Compare(b) == -b.Compare(a)
    ensures a.Compare(b) < 0 && b.Compare(c) < 0 ==> a.Compare(c) < 0
    ensures a.Compare(b) < 0 ==> a.occurredAt <= b.occurredAt
  {
  }

  /** `evidence` stands for the rest of the canonical record: source, execution,
      order and report identities. */
  datatype Fill = Fill(id: FillId, position: PositionId, side: Side, quantity: int64, price: int64, currency: string,
                       occurredAt: Instant, receivedAt: Instant, evidence: nat) {
    function Key(): OrderingKey {
      OrderingKey(occurredAt, receivedAt, id)
    }

    predicate Unset() {
      position.Unset() || id == 0
    }

    /** What the constructor of an accounting fill accepts. */
    predicate Valid() {
      && id != 0 && !position.Unset() && quantity > 0 && price > 0 && currency != ""
      && occurredAt != 0 && receivedAt != 0
    }
  }

  /** The running checksum over applied fills, kept as the list it digests. */
  datatype FillChain = Genesis | Link(previous: FillChain, fill: Fill)

  datatype Lot = Lot(side: Side, quantity: int, totalBasis: int, averageNumerator: int, averageDenominator: int,
                     openedAt: Instant)

  datatype Snapshot = Snapshot(position: PositionId, currency: string, revision: int, net: int64, lot: Option<Lot>,
                               basis: int64, boughtQuantity: int64, boughtValue: int64, soldQuantity: int64,
                               soldValue: int64, realized: int64, lastKey: OrderingKey, lastFill: FillId,
                               appliedCount: int, appliedChain: FillChain, openedAt: Instant, updatedAt: Instant,
                               flatAt: Instant)

  /** The conditions under which a snapshot is accepted, in the order in which
      the constructor tests them. */
  predicate Acceptable(s: Snapshot) {
    && !s.position.Unset() && s.revision > 0 && s.boughtQuantity >= 0 && s.soldQuantity >= 0 && s.currency != ""
    && !s.lastKey.Unset() && s.lastFill != 0 && s.lastFill == s.lastKey.fill && s.appliedCount != 0
    && s.appliedChain != Genesis && s.openedAt != 0 && s.updatedAt != 0
    && s.basis >= 0 && s.boughtValue >= 0 && s.soldValue >= 0 && s.updatedAt >= s.openedAt
    && s.net != MIN
    && (if s.net == 0 then
          s.lot.None? && s.basis == 0 && s.flatAt != 0 && s.flatAt <= s.updatedAt
        else
          && s.lot.Some? && s.basis > 0 && s.flatAt == 0
          && var lot := s.lot.value;
          && lot.openedAt == s.openedAt && lot.quantity == Magnitude(s.net) && lot.totalBasis == s.basis
          && lot.averageNumerator == s.basis && lot.averageDenominator == Magnitude(s.net) && lot.quantity > 0
          && lot.side == (if s.net > 0 then Buy else Sell))
  }
}
