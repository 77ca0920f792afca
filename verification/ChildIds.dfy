/** Instance ids of sub-orchestrations: auto-generated ids get the parent's id as a prefix. */
module ChildIds {
  import opened Common

  const AUTO_PREFIX := "sub::"
  const PENDING_PREFIX := "sub::pending_"

  function Digit(d: nat): char
    requires d < 10
  {
    ['0', '1', '2', '3', '4', '5', '6', '7', '8', '9'][d]
  }

  predicate IsDigit(c: char) {
    '0' <= c <= '9'
  }

  /** The decimal form of a number, without leading zeros. */
  function Decimal(n: nat): (s: string)
    ensures s != [] && forall i :: 0 <= i < |s| ==> IsDigit(s[i])
  {
    if n < 10 then [Digit(n)] else Decimal(n / 10) + [Digit(n % 10)]
  }

  function DigitValue(c: char): nat
    requires IsDigit(c)
  {
    c as int - '0' as int
  }

  function ParseDecimal(s: string): nat
    requires forall i :: 0 <= i < |s| ==> IsDigit(s[i])
  {
    if s == [] then 0 else 10 * ParseDecimal(s[..|s| - 1]) + DigitValue(s[|s| - 1])
  }

  predicate IsAutoGenerated(instance: string) {
    AUTO_PREFIX <= instance
  }

  function BuildChildId(parent: string, child: string): string {
    if IsAutoGenerated(child) then parent + "::" + child else child
  }

  /** A pending placeholder becomes "sub::" and the event id; any other id is kept. */
  function AssignEventId(instance: string, eventId: nat): string {
    if PENDING_PREFIX <= instance then AUTO_PREFIX + Decimal(eventId) else instance
  }

  /** The full id of a child scheduled without an explicit id; token is its placeholder number. */
  function AutoChildId(parent: string, token: nat, eventId: nat): string {
    BuildChildId(parent, AssignEventId(PENDING_PREFIX + Decimal(token), eventId))
  }

  /** Splits off the longest suffix of digits. */
  function DigitsAtEnd(s: string): (k: nat)
    ensures k <= |s|
  {
    if s == [] || !IsDigit(s[|s| - 1]) then 0 else 1 + DigitsAtEnd(s[..|s| - 1])
  }

  /** Reads parent and event id back from "{parent}::sub::{n}". */
  function ParseAutoId(s: string): Option<(string, nat)> {
    var k := DigitsAtEnd(s);
    var front, digits := s[..|s| - k], s[|s| - k..];
    var mark := "::" + AUTO_PREFIX;
    DigitsAreDigits(s);
    if k > 0 && |front| >= |mark| && front[|front| - |mark|..] == mark
    then Some((front[..|front| - |mark|], ParseDecimal(digits)))
    else None
  }

  lemma {:induction false} DigitsAreDigits(s: string)
    ensures forall i :: |s| - DigitsAtEnd(s) <= i < |s| ==> IsDigit(s[i])
  {
    if s != [] && IsDigit(s[|s| - 1]) {
      var rest := s[..|s| - 1];
      DigitsAreDigits(rest);
      forall i | |s| - DigitsAtEnd(s) <= i < |s| ensures IsDigit(s[i]) {
        if i < |rest| { assert rest[i] == s[i]; }
      }
    }
  }

  lemma {:induction false} DecimalRoundTrip(n: nat)
    ensures ParseDecimal(Decimal(n)) == n
  {
    if n >= 10 {
      DecimalRoundTrip(n / 10);
      assert Decimal(n)[..|Decimal(n)| - 1] == Decimal(n / 10);
    } else {
      assert Decimal(n)[..0] == [];
    }
  }

  /** Decimal numbers are written with the usual digits, and without a zero in front. */
  lemma {:induction false} DecimalLooks(n: nat)
    ensures Decimal(n)[0] == '0' ==> n == 0
    ensures n < 10 ==> Decimal(n) == ["0123456789"[n]]
    ensures n >= 10 ==> Decimal(n) == Decimal(n / 10) + Decimal(n % 10)
    ensures Decimal(1207) == "1207"
  {
    if n >= 10 {
      DecimalLooks(n / 10);
    }
    assert Decimal(1207) == Decimal(120) + Decimal(7) == Decimal(12) + Decimal(0) + Decimal(7);
    assert Decimal(12) == Decimal(1) + Decimal(2);
  }

  lemma {:induction false} DigitSuffix(front: string, digits: string)
    requires forall i :: 0 <= i < |digits| ==> IsDigit(digits[i])
    requires front != [] && !IsDigit(front[|front| - 1])
    ensures DigitsAtEnd(front + digits) == |digits|
  {
    if digits == [] {
      assert front + digits == front;
    } else {
      assert (front + digits)[..|front + digits| - 1] == front + digits[..|digits| - 1];
      DigitSuffix(front, digits[..|digits| - 1]);
    }
  }

  /** The shape of an auto-generated id, whatever the placeholder. */
  lemma AutoChildIdShape(parent: string, token: nat, eventId: nat)
    ensures AutoChildId(parent, token, eventId) == parent + "::" + AUTO_PREFIX + Decimal(eventId)
    ensures AutoChildId(parent, token, eventId) == parent + "::sub::" + Decimal(eventId)
  {
    assert PENDING_PREFIX <= PENDING_PREFIX + Decimal(token);
    assert AUTO_PREFIX <= AUTO_PREFIX + Decimal(eventId);
    assert parent + "::" + (AUTO_PREFIX + Decimal(eventId)) == parent + "::" + AUTO_PREFIX + Decimal(eventId);
    assert "::" + AUTO_PREFIX == "::sub::";
    assert parent + "::" + AUTO_PREFIX == parent + ("::" + AUTO_PREFIX);
  }

  lemma Slices(a: string, b: string)
    ensures (a + b)[..|a|] == a && (a + b)[|a|..] == b
  {
  }

  /** Parent, mark and digits come apart again. */
  lemma ParsesBack(parent: string, digits: string)
    requires digits != [] && forall i :: 0 <= i < |digits| ==> IsDigit(digits[i])
    ensures ParseAutoId(parent + ("::" + AUTO_PREFIX) + digits) == Some((parent, ParseDecimal(digits)))
  {
    var mark := "::" + AUTO_PREFIX;
    var front := parent + mark;
    assert front[|front| - 1] == mark[|mark| - 1] == ':';
    DigitSuffix(front, digits);
    Slices(front, digits);
    Slices(parent, mark);
    hide DigitsAtEnd, ParseDecimal;
  }

  /**
   Auto-generated ids parse back, for every parent id, nested ones included: the parent and the
   event id are determined by the child's full id.
   */
  lemma AutoIdRoundTrip(parent: string, token: nat, eventId: nat)
    ensures ParseAutoId(AutoChildId(parent, token, eventId)) == Some((parent, eventId))
  {
    hide ParseAutoId, AutoChildId, Decimal, ParseDecimal;
    AutoChildIdShape(parent, token, eventId);
    ParsesBack(parent, Decimal(eventId));
    assert parent + "::" + AUTO_PREFIX == parent + ("::" + AUTO_PREFIX);
    DecimalRoundTrip(eventId);
  }

  /** Distinct (parent, event id) pairs never share a child id. */
  lemma AutoIdsDoNotCollide(p: string, t: nat, m: nat, q: string, u: nat, n: nat)
    requires AutoChildId(p, t, m) == AutoChildId(q, u, n)
    ensures p == q && m == n
  {
    AutoIdRoundTrip(p, t, m);
    AutoIdRoundTrip(q, u, n);
  }

  /**
   An id given by the caller is used unchanged exactly when it does not start with "sub::", or
   starts like a placeholder and happens to be the id that is generated in its place.
   */
  lemma ExplicitIdKept(parent: string, explicit: string, eventId: nat)
    ensures BuildChildId(parent, AssignEventId(explicit, eventId)) == explicit
            <==> !("sub::" <= explicit)
                 || ("sub::pending_" <= explicit && explicit == parent + "::sub::" + Decimal(eventId))
  {
    hide Decimal;
    PrefixesOf(explicit);
    if PENDING_PREFIX <= explicit {
      GeneratedInItsPlace(parent, eventId);
      hide BuildChildId;
    } else if IsAutoGenerated(explicit) {
      assert |parent + "::" + explicit| > |explicit|;
    }
  }

  lemma PrefixesOf(explicit: string)
    ensures PENDING_PREFIX <= explicit ==> AUTO_PREFIX <= explicit
    ensures AUTO_PREFIX == "sub::" && PENDING_PREFIX == "sub::pending_"
  {
    if PENDING_PREFIX <= explicit {
      assert PENDING_PREFIX[..5] == AUTO_PREFIX;
      assert explicit[..5] == explicit[..13][..5];
    }
  }

  lemma GeneratedInItsPlace(parent: string, eventId: nat)
    ensures BuildChildId(parent, AUTO_PREFIX + Decimal(eventId)) == parent + "::sub::" + Decimal(eventId)
  {
    hide Decimal;
    assert AUTO_PREFIX <= AUTO_PREFIX + Decimal(eventId);
    assert "::" + AUTO_PREFIX == "::sub::";
    assert parent + "::" + (AUTO_PREFIX + Decimal(eventId)) == parent + ("::" + AUTO_PREFIX) + Decimal(eventId);
  }
}
