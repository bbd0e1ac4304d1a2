/** The hash stepping behind synthetic NSEC3 records: what the neighbours of a hash really are. */
module Nsec3 {
  import opened Prelude

  type Byte = b: int | 0 <= b < 256

  const LOWEST: Byte := 48
  const HIGHEST: Byte := 86

  /** A byte the code counts through: '0' to 'V', 39 of them. */
  predicate InRange(b: Byte) {
    LOWEST <= b <= HIGHEST
  }

  /** A character of base32hex, section 7 of RFC 4648: '0' to '9' and 'A' to 'V', 32 of them. */
  predicate InAlphabet(b: Byte) {
    48 <= b <= 57 || 65 <= b <= 86
  }

  predicate AllInRange(h: seq<Byte>) {
    forall i :: 0 <= i < |h| ==> InRange(h[i])
  }

  predicate AllInAlphabet(h: seq<Byte>) {
    forall i :: 0 <= i < |h| ==> InAlphabet(h[i])
  }

  // ---------------------------------------------------------------- stepping

  /** Add one with carry from the right; None when every byte carries. */
  function StepUp(h: seq<Byte>): Option<seq<Byte>> {
    if h == [] then None
    else
      var init, last := h[..|h| - 1], h[|h| - 1];
      if last < HIGHEST then Some(init + [last + 1])
      else match StepUp(init) case None => None case Some(r) => Some(r + [LOWEST])
  }

  /** Subtract one with borrow from the right; None when every byte borrows. */
  function StepDown(h: seq<Byte>): Option<seq<Byte>> {
    if h == [] then None
    else
      var init, last := h[..|h| - 1], h[|h| - 1];
      if last > LOWEST then Some(init + [last - 1])
      else match StepDown(init) case None => None case Some(r) => Some(r + [HIGHEST])
  }

  lemma StepUpAt(h: seq<Byte>, i: nat)
    requires i < |h|
    ensures StepUp(h[..i + 1]) == if h[i] < HIGHEST then Some(h[..i] + [h[i] + 1])
                                  else match StepUp(h[..i]) case None => None case Some(r) => Some(r + [LOWEST])
  {
    assert h[..i + 1][..i] == h[..i];
  }

  lemma StepDownAt(h: seq<Byte>, i: nat)
    requires i < |h|
    ensures StepDown(h[..i + 1]) == if h[i] > LOWEST then Some(h[..i] + [h[i] - 1])
                                    else match StepDown(h[..i]) case None => None case Some(r) => Some(r + [HIGHEST])
  {
    assert h[..i + 1][..i] == h[..i];
  }

  function Incremented(h: seq<Byte>): seq<Byte> {
    match StepUp(h) case None => h case Some(r) => r
  }

  function Decremented(h: seq<Byte>): seq<Byte> {
    match StepDown(h) case None => h case Some(r) => r
  }

  /** The loop of incrementHash, over its own copy of the bytes. */
  method IncrementHash(hash: seq<Byte>) returns (next: seq<Byte>)
    ensures next == Incremented(hash)
  {
    var bytes := new Byte[|hash|](i requires 0 <= i < |hash| => hash[i]);
    assert bytes[..] == hash;
    CarriedNothing(StepUp(hash));
    assert StepUp([]) == None;
    hide StepUp;
    var i := |hash| - 1;
    assert hash[..i + 1] == hash && bytes[i + 1..] == [];
    while i >= 0
      invariant -1 <= i < |hash|
      invariant bytes[..i + 1] == hash[..i + 1]
      invariant StepUp(hash) == Carried(StepUp(hash[..i + 1]), bytes[i + 1..])
    {
      ghost var rest := bytes[i + 1..];
      StepUpAt(hash, i);
      if bytes[i] < HIGHEST {
        bytes[i] := bytes[i] + 1;
        Stepped(bytes[..], hash, i, hash[i] + 1, rest);
        return bytes[..];
      }
      bytes[i] := LOWEST;
      assert bytes[i..] == [LOWEST] + rest;
      CarriedOn(StepUp(hash[..i]), LOWEST, rest);
      i := i - 1;
    }
    assert hash[..0] == [];
    return hash;
  }

  method DecrementHash(hash: seq<Byte>) returns (previous: seq<Byte>)
    ensures previous == Decremented(hash)
  {
    var bytes := new Byte[|hash|](i requires 0 <= i < |hash| => hash[i]);
    assert bytes[..] == hash;
    CarriedNothing(StepDown(hash));
    assert StepDown([]) == None;
    hide StepDown;
    var i := |hash| - 1;
    assert hash[..i + 1] == hash && bytes[i + 1..] == [];
    while i >= 0
      invariant -1 <= i < |hash|
      invariant bytes[..i + 1] == hash[..i + 1]
      invariant StepDown(hash) == Carried(StepDown(hash[..i + 1]), bytes[i + 1..])
    {
      ghost var rest := bytes[i + 1..];
      StepDownAt(hash, i);
      if bytes[i] > LOWEST {
        bytes[i] := bytes[i] - 1;
        Stepped(bytes[..], hash, i, hash[i] - 1, rest);
        return bytes[..];
      }
      bytes[i] := HIGHEST;
      assert bytes[i..] == [HIGHEST] + rest;
      CarriedOn(StepDown(hash[..i]), HIGHEST, rest);
      i := i - 1;
    }
    assert hash[..0] == [];
    return hash;
  }

  ghost function Carried(front: Option<seq<Byte>>, rest: seq<Byte>): Option<seq<Byte>> {
    match front case None => None case Some(r) => Some(r + rest)
  }

  lemma Stepped(bytes: seq<Byte>, hash: seq<Byte>, i: nat, b: Byte, rest: seq<Byte>)
    requires i < |bytes| == |hash| && bytes[..i] == hash[..i] && bytes[i] == b && bytes[i + 1..] == rest
    ensures bytes == (hash[..i] + [b]) + rest
  {
    assert bytes == bytes[..i] + [bytes[i]] + bytes[i + 1..];
  }

  lemma CarriedOn(front: Option<seq<Byte>>, b: Byte, rest: seq<Byte>)
    ensures front.Some? ==> Carried(Some(front.value + [b]), rest) == Carried(front, [b] + rest)
  {
    if front.Some? {
      assert (front.value + [b]) + rest == front.value + ([b] + rest);
    }
  }

  lemma CarriedNothing(front: Option<seq<Byte>>)
    ensures Carried(front, []) == front
  {
    if front.Some? {
      assert front.value + [] == front.value;
    }
  }

  // ---------------------------------------------------------------- order

  /** The lexicographic order of equally long strings. */
  ghost predicate Before(a: seq<Byte>, b: seq<Byte>) {
    |a| == |b| && exists i :: 0 <= i < |a| && a[..i] == b[..i] && a[i] < b[i]
  }

  lemma BeforeByTheLast(a: seq<Byte>, b: seq<Byte>)
    requires |a| == |b| > 0
    ensures var n := |a| - 1;
            Before(a, b) <==> (Before(a[..n], b[..n]) || (a[..n] == b[..n] && a[n] < b[n]))
  {
    var n := |a| - 1;
    if i :| 0 <= i < |a| && a[..i] == b[..i] && a[i] < b[i] {
      if i < n {
        assert a[..n][..i] == a[..i] == b[..i] == b[..n][..i];
        assert a[..n][i] < b[..n][i];
        assert Before(a[..n], b[..n]);
      }
    }
    if Before(a[..n], b[..n]) {
      var i :| 0 <= i < n && a[..n][..i] == b[..n][..i] && a[..n][i] < b[..n][i];
      assert a[..i] == a[..n][..i] == b[..n][..i] == b[..i];
      assert a[i] < b[i];
    }
  }

  /** The string read as a number in base 39. */
  function Value(h: seq<Byte>): int {
    if h == [] then 0 else 39 * Value(h[..|h| - 1]) + (h[|h| - 1] - LOWEST)
  }

  /** On the bytes '0' to 'V' the lexicographic order is the order of the numbers. */
  lemma {:induction false} OrderIsValueOrder(a: seq<Byte>, b: seq<Byte>)
    requires |a| == |b| && AllInRange(a) && AllInRange(b)
    ensures Before(a, b) <==> Value(a) < Value(b)
    ensures a == b <==> Value(a) == Value(b)
  {
    if a != [] {
      var n := |a| - 1;
      OrderIsValueOrder(a[..n], b[..n]);
      BeforeByTheLast(a, b);
      assert InRange(a[n]) && InRange(b[n]);
      assert a == a[..n] + [a[n]] && b == b[..n] + [b[n]];
    }
  }

  // ---------------------------------------------------------------- the neighbours

  predicate AllAre(h: seq<Byte>, b: Byte) {
    forall i :: 0 <= i < |h| ==> h[i] == b
  }

  lemma {:induction false} StepUpAddsOne(h: seq<Byte>)
    requires AllInRange(h)
    ensures StepUp(h).None? <==> AllAre(h, HIGHEST)
    ensures StepUp(h).Some? ==>
              var r := StepUp(h).value; |r| == |h| && AllInRange(r) && Value(r) == Value(h) + 1
  {
    if h != [] {
      var n := |h| - 1;
      assert InRange(h[n]);
      StepUpAddsOne(h[..n]);
      if h[n] < HIGHEST {
        var r := h[..n] + [h[n] + 1];
        assert r[..n] == h[..n];
      } else if StepUp(h[..n]).Some? {
        var r := StepUp(h[..n]).value;
        assert (r + [LOWEST])[..n] == r;
      }
      assert AllAre(h, HIGHEST) <==> AllAre(h[..n], HIGHEST) && h[n] == HIGHEST;
    }
  }

  lemma {:induction false} StepDownTakesOne(h: seq<Byte>)
    requires AllInRange(h)
    ensures StepDown(h).None? <==> AllAre(h, LOWEST)
    ensures StepDown(h).Some? ==>
              var r := StepDown(h).value; |r| == |h| && AllInRange(r) && Value(r) == Value(h) - 1
  {
    if h != [] {
      var n := |h| - 1;
      assert InRange(h[n]);
      StepDownTakesOne(h[..n]);
      if h[n] > LOWEST {
        var r := h[..n] + [h[n] - 1];
        assert r[..n] == h[..n];
      } else if StepDown(h[..n]).Some? {
        var r := StepDown(h[..n]).value;
        assert (r + [HIGHEST])[..n] == r;
      }
      assert AllAre(h, LOWEST) <==> AllAre(h[..n], LOWEST) && h[n] == LOWEST;
    }
  }

  /** Unless every byte is 'V', the increment is the very next string of its length. */
  lemma IncrementIsTheSuccessor(h: seq<Byte>, x: seq<Byte>)
    requires AllInRange(h) && AllInRange(x) && |x| == |h| && !AllAre(h, HIGHEST)
    ensures |Incremented(h)| == |h| && AllInRange(Incremented(h))
    ensures Before(h, Incremented(h))
    ensures Before(h, x) <==> x == Incremented(h) || Before(Incremented(h), x)
  {
    StepUpAddsOne(h);
    var r := Incremented(h);
    OrderIsValueOrder(h, r);
    OrderIsValueOrder(h, x);
    OrderIsValueOrder(r, x);
  }

  /** Unless every byte is '0', the decrement is the very string before. */
  lemma DecrementIsThePredecessor(h: seq<Byte>, x: seq<Byte>)
    requires AllInRange(h) && AllInRange(x) && |x| == |h| && !AllAre(h, LOWEST)
    ensures |Decremented(h)| == |h| && AllInRange(Decremented(h))
    ensures Before(Decremented(h), h)
    ensures Before(x, h) <==> x == Decremented(h) || Before(x, Decremented(h))
  {
    StepDownTakesOne(h);
    var r := Decremented(h);
    OrderIsValueOrder(r, h);
    OrderIsValueOrder(x, h);
    OrderIsValueOrder(x, r);
  }

  /** The decrement undoes the increment, except where the increment does nothing. */
  lemma DecrementUndoesIncrement(h: seq<Byte>)
    requires AllInRange(h) && h != []
    ensures Decremented(Incremented(h)) == h <==> !AllAre(h, HIGHEST)
  {
    StepUpAddsOne(h);
    if AllAre(h, HIGHEST) {
      assert h[0] == HIGHEST != LOWEST;
      StepDownTakesOne(h);
    } else {
      var up := Incremented(h);
      ZeroIsAllLowest(h);
      ZeroIsAllLowest(up);
      StepDownTakesOne(up);
      OrderIsValueOrder(Decremented(up), h);
    }
  }

  /** The increment undoes the decrement, except where the decrement does nothing. */
  lemma IncrementUndoesDecrement(h: seq<Byte>)
    requires AllInRange(h) && h != []
    ensures Incremented(Decremented(h)) == h <==> !AllAre(h, LOWEST)
  {
    StepDownTakesOne(h);
    if AllAre(h, LOWEST) {
      assert h[0] == LOWEST != HIGHEST;
      StepUpAddsOne(h);
    } else {
      var down := Decremented(h);
      if AllAre(down, HIGHEST) {
        TopIsAllHighest(h, down);
      }
      StepUpAddsOne(down);
      OrderIsValueOrder(Incremented(down), h);
    }
  }

  lemma {:induction false} ZeroIsAllLowest(h: seq<Byte>)
    requires AllInRange(h)
    ensures Value(h) >= 0
    ensures Value(h) == 0 <==> AllAre(h, LOWEST)
  {
    if h != [] {
      var n := |h| - 1;
      assert InRange(h[n]);
      ZeroIsAllLowest(h[..n]);
      assert AllAre(h, LOWEST) <==> AllAre(h[..n], LOWEST) && h[n] == LOWEST;
    }
  }

  lemma {:induction false} TopIsAllHighest(h: seq<Byte>, top: seq<Byte>)
    requires AllInRange(h) && AllInRange(top) && |h| == |top| && AllAre(top, HIGHEST)
    ensures Value(h) <= Value(top)
  {
    if h != [] {
      var n := |h| - 1;
      assert InRange(h[n]);
      TopIsAllHighest(h[..n], top[..n]);
    }
  }

  // ---------------------------------------------------------------- the cover

  datatype Record = Record(owner: seq<Byte>, next: seq<Byte>)

  function Cover(hash: seq<Byte>): Record {
    Record(Decremented(hash), Incremented(hash))
  }

  /** Section 7.2.2 of RFC 5155: the record proves absence of the hashes strictly between. */
  ghost predicate Covers(record: Record, hash: seq<Byte>) {
    Before(record.owner, hash) && Before(hash, record.next)
  }

  /** Inside the range, the record covers the hash it was made for and no other hash at all. */
  lemma CoverIsExact(hash: seq<Byte>, other: seq<Byte>)
    requires AllInRange(hash) && AllInRange(other) && |other| == |hash|
    requires !AllAre(hash, LOWEST) && !AllAre(hash, HIGHEST)
    ensures Covers(Cover(hash), other) <==> other == hash
  {
    StepUpAddsOne(hash);
    StepDownTakesOne(hash);
    OrderIsValueOrder(Decremented(hash), other);
    OrderIsValueOrder(other, Incremented(hash));
    OrderIsValueOrder(hash, other);
  }

  /** At an end of the range the hash bounds its own interval, and the record covers nothing. */
  lemma CoverAtAnEndIsEmpty(hash: seq<Byte>, other: seq<Byte>)
    requires AllInRange(hash) && AllInRange(other) && |other| == |hash|
    requires AllAre(hash, LOWEST) || AllAre(hash, HIGHEST)
    ensures !Covers(Cover(hash), other)
  {
    StepUpAddsOne(hash);
    StepDownTakesOne(hash);
    OrderIsValueOrder(Decremented(hash), other);
    OrderIsValueOrder(other, Incremented(hash));
  }

  /** The denial proves the absence of its own name exactly when the hash is at neither end. */
  lemma DenialHoldsIffInside(hash: seq<Byte>)
    requires AllInRange(hash)
    ensures Covers(Cover(hash), hash) <==> !AllAre(hash, LOWEST) && !AllAre(hash, HIGHEST)
  {
    if AllAre(hash, LOWEST) || AllAre(hash, HIGHEST) {
      CoverAtAnEndIsEmpty(hash, hash);
    } else {
      CoverIsExact(hash, hash);
    }
  }

  /** The two synthetic records of a denial, for the hash of the name and of the wildcard: each covers
      its own hash and no other, unless the hash is at an end of the range. */
  method GenerateNxdomain(nameHash: seq<Byte>, wildcardHash: seq<Byte>) returns (records: seq<Record>)
    ensures |records| == 2
    ensures AllInRange(nameHash) ==> (CoversOnly(records[0], nameHash) <==> Inside(nameHash))
    ensures AllInRange(wildcardHash) ==> (CoversOnly(records[1], wildcardHash) <==> Inside(wildcardHash))
  {
    var previous := DecrementHash(nameHash);
    var next := IncrementHash(nameHash);
    var wildcardPrevious := DecrementHash(wildcardHash);
    var wildcardNext := IncrementHash(wildcardHash);
    if AllInRange(nameHash) {
      CoversOnlyIffInside(nameHash);
    }
    if AllInRange(wildcardHash) {
      CoversOnlyIffInside(wildcardHash);
    }
    return [Record(previous, next), Record(wildcardPrevious, wildcardNext)];
  }

  /** Neither all '0' nor all 'V'. */
  predicate Inside(hash: seq<Byte>) {
    !AllAre(hash, LOWEST) && !AllAre(hash, HIGHEST)
  }

  /** Of all hashes of its length, the record covers this one and no other. */
  ghost predicate CoversOnly(record: Record, hash: seq<Byte>) {
    forall other :: AllInRange(other) && |other| == |hash| ==> (Covers(record, other) <==> other == hash)
  }

  lemma CoversOnlyIffInside(hash: seq<Byte>)
    requires AllInRange(hash)
    ensures CoversOnly(Cover(hash), hash) <==> Inside(hash)
  {
    DenialHoldsIffInside(hash);
    if Inside(hash) {
      forall other | AllInRange(other) && |other| == |hash| ensures Covers(Cover(hash), other) <==> other == hash {
        CoverIsExact(hash, other);
      }
    }
  }

  // ---------------------------------------------------------------- the alphabet

  /** The byte that an increment changes by one: the last that is not 'V'. */
  ghost predicate IsPivot(h: seq<Byte>, i: int, extreme: Byte) {
    0 <= i < |h| && h[i] != extreme && AllAre(h[i + 1..], extreme)
  }

  lemma {:induction false} StepUpAtPivot(h: seq<Byte>, i: nat)
    requires AllInRange(h) && IsPivot(h, i, HIGHEST)
    ensures StepUp(h) == Some(h[..i] + [h[i] + 1] + seq(|h| - i - 1, _ => LOWEST))
  {
    var n := |h| - 1;
    assert InRange(h[i]);
    if i == n {
      assert h[..i] + [h[i] + 1] + seq(0, _ => LOWEST) == h[..i] + [h[i] + 1];
    } else {
      assert h[i + 1..][n - i - 1] == HIGHEST;
      assert h[..n][i + 1..] == h[i + 1..][..n - i - 1];
      assert h[..n][..i] == h[..i];
      StepUpAtPivot(h[..n], i);
      assert seq(n - i - 1, _ => LOWEST) + [LOWEST] == seq(n - i, _ => LOWEST);
      assert (h[..i] + [h[i] + 1] + seq(n - i - 1, _ => LOWEST)) + [LOWEST]
          == h[..i] + [h[i] + 1] + (seq(n - i - 1, _ => LOWEST) + [LOWEST]);
    }
  }

  lemma {:induction false} StepDownAtPivot(h: seq<Byte>, i: nat)
    requires AllInRange(h) && IsPivot(h, i, LOWEST)
    ensures StepDown(h) == Some(h[..i] + [h[i] - 1] + seq(|h| - i - 1, _ => HIGHEST))
  {
    var n := |h| - 1;
    assert InRange(h[i]);
    if i == n {
      assert h[..i] + [h[i] - 1] + seq(0, _ => HIGHEST) == h[..i] + [h[i] - 1];
    } else {
      assert h[i + 1..][n - i - 1] == LOWEST;
      assert h[..n][i + 1..] == h[i + 1..][..n - i - 1];
      assert h[..n][..i] == h[..i];
      StepDownAtPivot(h[..n], i);
      assert seq(n - i - 1, _ => HIGHEST) + [HIGHEST] == seq(n - i, _ => HIGHEST);
      assert (h[..i] + [h[i] - 1] + seq(n - i - 1, _ => HIGHEST)) + [HIGHEST]
          == h[..i] + [h[i] - 1] + (seq(n - i - 1, _ => HIGHEST) + [HIGHEST]);
    }
  }

  /** The increment of a base32hex string is base32hex again exactly when the byte it changes is
      not '9', whose neighbour is ':'. */
  lemma IncrementStaysInAlphabetIff(h: seq<Byte>, i: nat)
    requires AllInAlphabet(h) && IsPivot(h, i, HIGHEST)
    ensures AllInAlphabet(Incremented(h)) <==> h[i] != 57
  {
    assert AllInRange(h) by {
      assert forall k :: 0 <= k < |h| ==> InAlphabet(h[k]) ==> InRange(h[k]);
    }
    StepUpAtPivot(h, i);
    assert InAlphabet(h[i]);
    var r := Incremented(h);
    assert r[i] == h[i] + 1;
    assert forall k :: 0 <= k < |h| && k != i ==> (r[k] == LOWEST || (k < i && r[k] == h[k]));
  }

  /** The decrement of one is base32hex again exactly when the byte it changes is not 'A', whose
      neighbour is '@'. */
  lemma DecrementStaysInAlphabetIff(h: seq<Byte>, i: nat)
    requires AllInAlphabet(h) && IsPivot(h, i, LOWEST)
    ensures AllInAlphabet(Decremented(h)) <==> h[i] != 65
  {
    assert AllInRange(h) by {
      assert forall k :: 0 <= k < |h| ==> InAlphabet(h[k]) ==> InRange(h[k]);
    }
    StepDownAtPivot(h, i);
    assert InAlphabet(h[i]);
    var r := Decremented(h);
    assert r[i] == h[i] - 1;
    assert forall k :: 0 <= k < |h| && k != i ==> (r[k] == HIGHEST || (k < i && r[k] == h[k]));
  }
}
