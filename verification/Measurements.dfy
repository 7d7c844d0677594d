/** Emitting the measurements of an OpenQASM program and reading the classical bits back. */
module Measurements {

  /** A statement of the program: `register[bit] = measure q[qubit]`, or anything else. */
  datatype Statement = Measure(register: string, bit: nat, qubit: nat) | Other

  /** One element of the ordered map from classical indices to qubits. */
  datatype Entry = Entry(bit: nat, qubit: nat)

  /** A measurement operation of the kernel, on one qubit or on a whole register of a given size. */
  datatype MeasureOp = OnQubit(qubit: nat) | OnRegister(size: nat)

  // ---- The ordered map ----

  predicate Ordered(es: seq<Entry>) {
    forall i, j :: 0 <= i < j < |es| ==> es[i].bit < es[j].bit
  }

  /** std::map::emplace: a new key goes to its place, a present key keeps its value. */
  function Emplace(es: seq<Entry>, bit: nat, qubit: nat): seq<Entry> {
    if es == [] || bit < es[0].bit then [Entry(bit, qubit)] + es
    else if bit == es[0].bit then es
    else [es[0]] + Emplace(es[1..], bit, qubit)
  }

  function Entries(stmts: seq<Statement>): seq<Entry> {
    if stmts == [] then []
    else
      var es, s := Entries(stmts[..|stmts| - 1]), stmts[|stmts| - 1];
      if s.Measure? then Emplace(es, s.bit, s.qubit) else es
  }

  predicate Has(es: seq<Entry>, bit: nat) { exists e <- es :: e.bit == bit }

  lemma {:induction false} EmplaceKeeps(es: seq<Entry>, bit: nat, qubit: nat)
    requires Ordered(es)
    ensures Ordered(Emplace(es, bit, qubit))
    ensures forall e :: e in Emplace(es, bit, qubit) <==> e in es || (e == Entry(bit, qubit) && !Has(es, bit))
    decreases |es|
  {
    if es == [] || bit < es[0].bit {
      assert Emplace(es, bit, qubit) == [Entry(bit, qubit)] + es;
      forall i | 0 <= i < |es| ensures es[i].bit != bit {
        assert es[0].bit <= es[i].bit;
      }
    } else if bit != es[0].bit {
      var rest, out := es[1..], Emplace(es[1..], bit, qubit);
      EmplaceKeeps(rest, bit, qubit);
      assert es == [es[0]] + rest;
      forall i | 0 <= i < |out| ensures es[0].bit < out[i].bit {
        assert out[i] in out;
        if out[i] in rest {
          var j :| 0 <= j < |rest| && rest[j] == out[i];
          assert es[j + 1] == rest[j];
        }
      }
      assert Has(es, bit) <==> Has(rest, bit);
    } else {
      assert es[0] in es;
    }
  }

  /** The qubit of the first measurement into a classical index. */
  predicate FirstInto(stmts: seq<Statement>, e: Entry) {
    exists i :: 0 <= i < |stmts| && Hits(stmts, i, e) && forall j :: 0 <= j < i ==> !Into(stmts, j, e.bit)
  }

  predicate Into(stmts: seq<Statement>, i: nat, bit: nat)
    requires i < |stmts|
  {
    stmts[i].Measure? && stmts[i].bit == bit
  }

  predicate Hits(stmts: seq<Statement>, i: nat, e: Entry)
    requires i < |stmts|
  {
    Into(stmts, i, e.bit) && stmts[i].qubit == e.qubit
  }

  /** The map is ordered and holds, for each classical index, the first qubit measured into it;
      register names play no part. */
  lemma {:induction false} EntriesAreFirst(stmts: seq<Statement>)
    ensures Ordered(Entries(stmts))
    ensures forall e :: e in Entries(stmts) <==> FirstInto(stmts, e)
    decreases |stmts|
  {
    if stmts != [] {
      var init, n := stmts[..|stmts| - 1], |stmts| - 1;
      var s := stmts[n];
      EntriesAreFirst(init);
      if s.Measure? {
        EmplaceKeeps(Entries(init), s.bit, s.qubit);
        HasIff(init, s.bit);
      }
      forall e ensures e in Entries(stmts) <==> FirstInto(stmts, e) {
        FirstSnoc(init, s, e);
        assert init + [s] == stmts;
      }
    }
  }

  lemma HasIff(stmts: seq<Statement>, bit: nat)
    requires forall e :: e in Entries(stmts) <==> FirstInto(stmts, e)
    ensures Has(Entries(stmts), bit) <==> exists i :: 0 <= i < |stmts| && Into(stmts, i, bit)
  {
    if i :| 0 <= i < |stmts| && Into(stmts, i, bit) {
      var e := Earliest(stmts, bit, i);
      assert e in Entries(stmts);
    }
  }

  lemma Earliest(stmts: seq<Statement>, bit: nat, i: nat) returns (e: Entry)
    requires i < |stmts| && Into(stmts, i, bit)
    ensures FirstInto(stmts, e) && e.bit == bit
    decreases i
  {
    if j :| 0 <= j < i && Into(stmts, j, bit) {
      e := Earliest(stmts, bit, j);
    } else {
      e := Entry(bit, stmts[i].qubit);
      assert Hits(stmts, i, e);
    }
  }

  lemma FirstSnoc(init: seq<Statement>, s: Statement, e: Entry)
    ensures FirstInto(init + [s], e)
       <==> FirstInto(init, e) || (s.Measure? && e == Entry(s.bit, s.qubit)
                                   && !exists i :: 0 <= i < |init| && Into(init, i, s.bit))
  {
    var all := init + [s];
    assert forall i :: 0 <= i < |init| ==>
             Into(all, i, e.bit) == Into(init, i, e.bit) && Hits(all, i, e) == Hits(init, i, e);
    if i :| 0 <= i < |init| && Hits(init, i, e) && forall j :: 0 <= j < i ==> !Into(init, j, e.bit) {
      assert Hits(all, i, e);
    } else if s.Measure? && e == Entry(s.bit, s.qubit) {
      assert Hits(all, |init|, e);
    }
  }

  function OpsOf(es: seq<Entry>): seq<MeasureOp> {
    seq(|es|, i requires 0 <= i < |es| => OnQubit(es[i].qubit))
  }

  /** parseAndInsertMeasurements: fill the map, then emit one measurement per entry in key order. */
  method InsertMeasurements(stmts: seq<Statement>) returns (ops: seq<MeasureOp>)
    ensures ops == OpsOf(Entries(stmts))
  {
    var entries: seq<Entry> := [];
    for i := 0 to |stmts|
      invariant entries == Entries(stmts[..i])
    {
      assert stmts[..i + 1][..i] == stmts[..i];
      match stmts[i] {
        case Measure(_, bit, qubit) => entries := Emplace(entries, bit, qubit);
        case Other =>
      }
    }
    assert stmts[..|stmts|] == stmts;
    ops := [];
    for i := 0 to |entries|
      invariant ops == OpsOf(entries[..i])
    {
      ops := ops + [OnQubit(entries[i].qubit)];
    }
    assert entries[..|entries|] == entries;
  }

  // ---- Counting the bits back ----

  datatype Bits = Bits(count: nat, bitOf: map<nat, nat>)

  function Identity(n: nat): map<nat, nat> { if n == 0 then map[] else Identity(n - 1)[n - 1 := n - 1] }

  function Recounted(ops: seq<MeasureOp>): Bits {
    if ops == [] then Bits(0, map[])
    else
      var b := Recounted(ops[..|ops| - 1]);
      match ops[|ops| - 1]
      case OnQubit(q) => Bits(b.count + 1, b.bitOf[q := b.count])
      case OnRegister(size) => Bits(b.count + size, b.bitOf + Identity(b.count + size))
  }

  /** getNumberOfClassicalBits, which also rebuilds the map from qubits to classical bits. */
  method GetNumberOfClassicalBits(ops: seq<MeasureOp>) returns (numBits: nat, measurements: map<nat, nat>)
    ensures Bits(numBits, measurements) == Recounted(ops)
  {
    numBits, measurements := 0, map[];
    for k := 0 to |ops|
      invariant Bits(numBits, measurements) == Recounted(ops[..k])
    {
      assert ops[..k + 1][..k] == ops[..k];
      match ops[k] {
        case OnQubit(q) =>
          measurements := measurements[q := numBits];
          numBits := numBits + 1;
        case OnRegister(size) =>
          ghost var before := measurements;
          numBits := numBits + size;
          for i := 0 to numBits
            invariant measurements == before + Identity(i)
          {
            measurements := measurements[i := i];
          }
      }
    }
    assert ops[..|ops|] == ops;
  }

  lemma {:induction false} IdentityAt(n: nat)
    ensures forall i: nat :: (i in Identity(n) <==> i < n) && (i in Identity(n) ==> Identity(n)[i] == i)
  {
    if n > 0 { IdentityAt(n - 1); }
  }

  /** How many bits the operations take, one for a qubit and as many as it has qubits for a register. */
  function BitsTaken(ops: seq<MeasureOp>): nat {
    if ops == [] then 0
    else BitsTaken(ops[..|ops| - 1]) + match ops[|ops| - 1] case OnQubit(_) => 1 case OnRegister(size) => size
  }

  /** Operation k covers the qubit it measures, or every qubit number below the number of bits taken
      once the register is measured, even one the register does not have. */
  predicate Covers(ops: seq<MeasureOp>, k: nat, q: nat)
    requires k < |ops|
  {
    match ops[k]
    case OnQubit(p) => p == q
    case OnRegister(size) => q < BitsTaken(ops[..k]) + size
  }

  /** The bit that operation k gives a qubit it covers: the next free one, or the qubit's own number. */
  function BitGiven(ops: seq<MeasureOp>, k: nat, q: nat): nat
    requires k < |ops|
  {
    if ops[k].OnQubit? then BitsTaken(ops[..k]) else q
  }

  predicate LastCover(ops: seq<MeasureOp>, k: nat, q: nat) {
    k < |ops| && Covers(ops, k, q) && forall j :: k < j < |ops| ==> !Covers(ops, j, q)
  }

  lemma CoversBefore(ops: seq<MeasureOp>, k: nat, q: nat)
    requires k < |ops| - 1
    ensures Covers(ops, k, q) == Covers(ops[..|ops| - 1], k, q)
    ensures BitGiven(ops, k, q) == BitGiven(ops[..|ops| - 1], k, q)
  {
    assert ops[..|ops| - 1][..k] == ops[..k];
  }

  /** What the last operation does to the entry of q. */
  lemma RecountedStep(ops: seq<MeasureOp>, q: nat)
    requires ops != [] && Recounted(ops[..|ops| - 1]).count == BitsTaken(ops[..|ops| - 1])
    ensures var n, b, a := |ops| - 1, Recounted(ops[..|ops| - 1]), Recounted(ops);
            && a.count == BitsTaken(ops)
            && (if Covers(ops, n, q) then q in a.bitOf && a.bitOf[q] == BitGiven(ops, n, q)
                else (q in a.bitOf <==> q in b.bitOf) && (q in a.bitOf ==> a.bitOf[q] == b.bitOf[q]))
  {
    if ops[|ops| - 1].OnRegister? { IdentityAt(BitsTaken(ops)); }
  }

  /** Recounting any mix of qubit and register measurements: the map holds exactly the covered qubits,
      each with the bit of the last operation that covers it. */
  lemma {:induction false} RecountedLast(ops: seq<MeasureOp>, q: nat)
    ensures Recounted(ops).count == BitsTaken(ops)
    ensures q in Recounted(ops).bitOf <==> exists k :: 0 <= k < |ops| && Covers(ops, k, q)
    ensures forall k: nat :: LastCover(ops, k, q) ==>
              q in Recounted(ops).bitOf && Recounted(ops).bitOf[q] == BitGiven(ops, k, q)
    decreases |ops|
  {
    hide Recounted, BitsTaken, Covers, BitGiven;
    if ops == [] {
      RecountedNone();
    } else {
      var init, n := ops[..|ops| - 1], |ops| - 1;
      RecountedLast(init, q);
      RecountedStep(ops, q);
      forall k | 0 <= k < n
        ensures Covers(ops, k, q) == Covers(init, k, q) && BitGiven(ops, k, q) == BitGiven(init, k, q)
      {
        CoversBefore(ops, k, q);
      }
      if !Covers(ops, n, q) {
        forall k: nat | LastCover(ops, k, q) ensures LastCover(init, k, q) {
        }
      }
    }
  }

  lemma RecountedNone()
    ensures Recounted([]) == Bits(0, map[]) && BitsTaken([]) == 0
  {
  }

  /** The qubits of a register of the given size have the bits from start on, in order. */
  predicate InOrder(bitOf: map<nat, nat>, start: nat, size: nat) {
    forall i: nat :: i < size ==> i in bitOf && bitOf[i] == start + i
  }

  /** A register measurement gives its qubits the bits it takes, in order, exactly when it is the first
      to take any, or takes none. */
  lemma RegisterBits(ops: seq<MeasureOp>, size: nat)
    ensures var b, a := Recounted(ops), Recounted(ops + [OnRegister(size)]);
            a.count == b.count + size && (InOrder(a.bitOf, b.count, size) <==> b.count == 0 || size == 0)
  {
    assert (ops + [OnRegister(size)])[..|ops|] == ops;
    var b, a := Recounted(ops), Recounted(ops + [OnRegister(size)]);
    IdentityAt(b.count + size);
    if size > 0 {
      assert 0 in a.bitOf && a.bitOf[0] == 0;
    }
  }

  /** The position of the last measurement of a qubit. */
  predicate LastOf(es: seq<Entry>, q: nat, k: nat) {
    k < |es| && es[k].qubit == q && forall j :: k < j < |es| ==> es[j].qubit != q
  }

  /** Recounting emitted measurements gives each qubit the position of its last measurement. */
  lemma {:induction false} RecountedPositions(es: seq<Entry>)
    ensures Recounted(OpsOf(es)).count == |es|
    ensures forall q: nat, k: nat :: LastOf(es, q, k)
              <==> q in Recounted(OpsOf(es)).bitOf && Recounted(OpsOf(es)).bitOf[q] == k
    decreases |es|
  {
    if es != [] {
      var init, n := es[..|es| - 1], |es| - 1;
      RecountedPositions(init);
      assert OpsOf(es)[..n] == OpsOf(init);
      forall q: nat, k: nat
        ensures LastOf(es, q, k) <==> if q == es[n].qubit then k == n else LastOf(init, q, k)
      {
      }
    }
  }

  // ---- The round trip ----

  /** Reading the bits back gives every measured qubit the classical index it was measured into. */
  ghost predicate Recovered(stmts: seq<Statement>) {
    var bits := Recounted(OpsOf(Entries(stmts))).bitOf;
    forall i :: 0 <= i < |stmts| && stmts[i].Measure? ==> stmts[i].qubit in bits && bits[stmts[i].qubit] == stmts[i].bit
  }

  /** The classical indices in use are 0, 1, .. without a gap. */
  predicate Gapless(stmts: seq<Statement>) {
    forall i, b: nat :: 0 <= i < |stmts| && stmts[i].Measure? && b < stmts[i].bit ==> Used(stmts, b)
  }

  predicate Used(stmts: seq<Statement>, bit: nat) {
    exists i :: 0 <= i < |stmts| && Into(stmts, i, bit)
  }

  /** Two measurements go to the same index exactly when they measure the same qubit. */
  predicate OneToOne(stmts: seq<Statement>) {
    forall i, j :: 0 <= i < |stmts| && 0 <= j < |stmts| && stmts[i].Measure? && stmts[j].Measure? ==>
      (stmts[i].bit == stmts[j].bit <==> stmts[i].qubit == stmts[j].qubit)
  }

  predicate Positional(es: seq<Entry>) {
    forall k :: 0 <= k < |es| ==> es[k].bit == k
  }

  /** An ordered map of indices has no gap exactly when every key is its position. */
  lemma GaplessPositions(stmts: seq<Statement>)
    ensures Gapless(stmts) <==> Positional(Entries(stmts))
  {
    var es := Entries(stmts);
    EntriesAreFirst(stmts);
    if Gapless(stmts) {
      forall k | 0 <= k < |es| ensures es[k].bit == k {
        KeyIsPosition(stmts, k);
      }
    } else if Positional(es) {
      forall i, b: nat | 0 <= i < |stmts| && stmts[i].Measure? && b < stmts[i].bit ensures Used(stmts, b) {
        assert Into(stmts, i, stmts[i].bit);
        var e := Earliest(stmts, stmts[i].bit, i);
        assert e in es;
        var k :| 0 <= k < |es| && es[k] == e;
        assert es[b] in es && es[b].bit == b && FirstInto(stmts, es[b]);
      }
    }
  }

  lemma {:induction false} KeyIsPosition(stmts: seq<Statement>, k: nat)
    requires Gapless(stmts) && k < |Entries(stmts)|
    ensures Entries(stmts)[k].bit == k
    decreases k
  {
    var es := Entries(stmts);
    EntriesAreFirst(stmts);
    if k > 0 {
      KeyIsPosition(stmts, k - 1);
    }
    if es[k].bit > k {
      assert es[k] in es && FirstInto(stmts, es[k]);
      var i :| 0 <= i < |stmts| && Hits(stmts, i, es[k]);
      var l := UsedEntry(stmts, k);
      assert false;
    }
  }

  lemma UsedEntry(stmts: seq<Statement>, bit: nat) returns (l: nat)
    requires Used(stmts, bit)
    ensures l < |Entries(stmts)| && Entries(stmts)[l].bit == bit
  {
    EntriesAreFirst(stmts);
    var j :| 0 <= j < |stmts| && Into(stmts, j, bit);
    var e := Earliest(stmts, bit, j);
    assert e in Entries(stmts);
    l :| 0 <= l < |Entries(stmts)| && Entries(stmts)[l] == e;
  }

  /** The round trip works exactly when the indices have no gap and match the qubits one to one. */
  lemma RoundTrip(stmts: seq<Statement>)
    ensures Recovered(stmts) <==> Gapless(stmts) && OneToOne(stmts)
    ensures Recounted(OpsOf(Entries(stmts))).count == |Entries(stmts)|
  {
    RecountedPositions(Entries(stmts));
    GaplessPositions(stmts);
    if Recovered(stmts) {
      RecoveredIsOneToOne(stmts);
      forall k | 0 <= k < |Entries(stmts)| ensures Entries(stmts)[k].bit == k {
        RecoveredKey(stmts, k);
      }
    }
    if Gapless(stmts) && OneToOne(stmts) {
      forall i | 0 <= i < |stmts| && stmts[i].Measure?
        ensures LastOf(Entries(stmts), stmts[i].qubit, stmts[i].bit)
      {
        StatementEntry(stmts, i);
      }
    }
  }

  /** The entry that a measurement statement of a gapless one-to-one program ends up in. */
  lemma StatementEntry(stmts: seq<Statement>, i: nat)
    requires i < |stmts| && stmts[i].Measure? && OneToOne(stmts)
    requires Positional(Entries(stmts))
    ensures LastOf(Entries(stmts), stmts[i].qubit, stmts[i].bit)
  {
    var es, s := Entries(stmts), stmts[i];
    EntriesAreFirst(stmts);
    assert Into(stmts, i, s.bit);
    var e := Earliest(stmts, s.bit, i);
    assert e in es;
    var k :| 0 <= k < |es| && es[k] == e;
    EntryStatement(stmts, k);
    forall j | k < j < |es| ensures es[j].qubit != s.qubit {
      EntryStatement(stmts, j);
    }
  }

  /** Every entry comes from a statement. */
  lemma EntryStatement(stmts: seq<Statement>, k: nat)
    requires k < |Entries(stmts)|
    ensures exists i :: 0 <= i < |stmts| && Hits(stmts, i, Entries(stmts)[k])
  {
    EntriesAreFirst(stmts);
    assert Entries(stmts)[k] in Entries(stmts);
    assert FirstInto(stmts, Entries(stmts)[k]);
  }

  lemma RecoveredKey(stmts: seq<Statement>, k: nat)
    requires Recovered(stmts) && OneToOne(stmts) && k < |Entries(stmts)|
    ensures Entries(stmts)[k].bit == k
  {
    var es := Entries(stmts);
    EntriesAreFirst(stmts);
    RecountedPositions(es);
    EntryStatement(stmts, k);
    forall j | k < j < |es| ensures es[j].qubit != es[k].qubit {
      EntryStatement(stmts, j);
    }
    assert LastOf(es, es[k].qubit, k);
  }

  lemma RecoveredIsOneToOne(stmts: seq<Statement>)
    requires Recovered(stmts)
    ensures OneToOne(stmts)
  {
    var es := Entries(stmts);
    RecountedPositions(es);
    var bits := Recounted(OpsOf(es)).bitOf;
    forall i, j | 0 <= i < |stmts| && 0 <= j < |stmts| && stmts[i].Measure? && stmts[j].Measure?
                && stmts[i].bit == stmts[j].bit
      ensures stmts[i].qubit == stmts[j].qubit
    {
      assert LastOf(es, stmts[i].qubit, bits[stmts[i].qubit]);
      assert LastOf(es, stmts[j].qubit, bits[stmts[j].qubit]);
    }
  }

  /** One qubit measured into bit 1 alone reads back as bit 0; one measured into bits 0 and 1 reads back as
      bit 1 for both. */
  lemma LostIndices(register: string)
    ensures var gap := [Measure(register, 1, 0)];
            Recounted(OpsOf(Entries(gap))).bitOf == map[0 := 0] && !Recovered(gap)
    ensures var twice := [Measure(register, 0, 0), Measure(register, 1, 0)];
            Recounted(OpsOf(Entries(twice))).bitOf == map[0 := 1] && !Recovered(twice)
  {
    var gap, twice := [Measure(register, 1, 0)], [Measure(register, 0, 0), Measure(register, 1, 0)];
    assert gap[..0] == [] && Entries(gap) == [Entry(1, 0)];
    assert twice[..1] == [Measure(register, 0, 0)] && twice[..1][..0] == [];
    assert Entries(twice[..1]) == [Entry(0, 0)];
    assert Entries(twice) == [Entry(0, 0), Entry(1, 0)];
    var one, two := [OnQubit(0)], [OnQubit(0), OnQubit(0)];
    assert OpsOf(Entries(gap)) == one && OpsOf(Entries(twice)) == two;
    assert one[..0] == [] && two[..1] == one;
    assert Recounted(one) == Bits(1, map[0 := 0]) && Recounted(two) == Bits(2, map[0 := 1]);
  }
}
