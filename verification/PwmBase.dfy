/** The table that lets several PWM channels share one timer: whoever claims it first sets it up. */
module PwmBase {
  const SLOTS: nat := 8

  /** A timer's address; zero is a null address. */
  type Timer = nat

  const NULL: Timer := 0

  /** The timers holding a slot after a sequence of claims: each non-null one when it first appears,
      as long as a slot is left. */
  function Owners(claims: seq<Timer>): (owners: seq<Timer>)
    ensures |owners| <= SLOTS
  {
    if claims == [] then []
    else
      var owners := Owners(claims[..|claims| - 1]);
      var t := claims[|claims| - 1];
      if t != NULL && t !in owners && |owners| < SLOTS then owners + [t] else owners
  }

  /** The owners in slot order, the remaining slots null. */
  function Table(owners: seq<Timer>): seq<Timer>
    requires |owners| <= SLOTS
  {
    owners + seq(SLOTS - |owners|, _ => NULL)
  }

  /** Slots hold real timers, each once, and every claimed one unless the table is full. */
  lemma {:induction false} OwnersAreTheClaims(claims: seq<Timer>)
    ensures forall i :: 0 <= i < |Owners(claims)| ==> Owners(claims)[i] != NULL && Owners(claims)[i] in claims
    ensures forall i, j :: 0 <= i < j < |Owners(claims)| ==> Owners(claims)[i] != Owners(claims)[j]
    ensures |Owners(claims)| < SLOTS ==> forall t :: t in claims && t != NULL ==> t in Owners(claims)
  {
    if claims == [] {
    } else {
      var prefix := claims[..|claims| - 1];
      OwnersAreTheClaims(prefix);
      assert claims == prefix + [claims[|claims| - 1]];
    }
  }

  class PwmBases {
    const slots: array<Timer>
    ghost var claims: seq<Timer>

    ghost predicate Valid()
      reads this, slots
    {
      slots.Length == SLOTS && slots[..] == Table(Owners(claims))
    }

    constructor ()
      ensures Valid() && claims == [] && fresh(slots)
    {
      slots := new Timer[SLOTS](_ => NULL);
      claims := [];
    }

    /** True exactly when t is a real timer nobody claimed before and a slot is left for it. */
    method Claim(t: Timer) returns (first: bool)
      requires Valid()
      modifies this, slots
      ensures Valid() && claims == old(claims) + [t]
      ensures first <==> t != NULL && t !in old(claims) && |Owners(old(claims))| < SLOTS
    {
      ghost var owners := Owners(claims);
      OwnersAreTheClaims(claims);
      claims := claims + [t];
      assert claims[..|claims| - 1] == old(claims);
      for i := 0 to slots.Length
        invariant slots[..] == Table(owners)
        invariant i <= |owners|
        invariant forall j :: 0 <= j < i ==> owners[j] != t
      {
        if slots[i] == t {
          if i < |owners| {
            assert slots[i] == owners[i];
          }
          return false;
        }
        if slots[i] == NULL {
          assert i == |owners|;
          slots[i] := t;
          assert slots[..] == Table(owners + [t]);
          return true;
        }
      }
      return false;
    }
  }

  /** The different real timers among the claims. */
  function Distinct(claims: seq<Timer>): set<Timer> {
    set t | t in claims && t != NULL
  }

  lemma {:induction false} OwnersCount(claims: seq<Timer>)
    ensures |Owners(claims)| == if |Distinct(claims)| < SLOTS then |Distinct(claims)| else SLOTS
  {
    if claims == [] {
      assert Distinct(claims) == {};
    } else {
      var prefix := claims[..|claims| - 1];
      var t := claims[|claims| - 1];
      OwnersCount(prefix);
      OwnersAreTheClaims(prefix);
      assert claims == prefix + [t];
      if t == NULL || t in prefix {
        assert Distinct(claims) == Distinct(prefix);
      } else {
        assert Distinct(claims) == Distinct(prefix) + {t};
      }
    }
  }

  predicate FirstUse(claims: seq<Timer>, i: nat)
    requires i < |claims|
  {
    claims[i] != NULL && claims[i] !in claims[..i]
  }

  /** What claim number i answers, as the class's method does. */
  predicate Answer(claims: seq<Timer>, i: nat)
    requires i < |claims|
  {
    FirstUse(claims, i) && |Owners(claims[..i])| < SLOTS
  }

  lemma SubsetSize(a: set<Timer>, b: set<Timer>)
    requires a <= b
    ensures |a| <= |b|
  {
    assert b == a + (b - a);
  }

  lemma DistinctGrows(claims: seq<Timer>, i: nat)
    requires i <= |claims|
    ensures |Distinct(claims[..i])| <= |Distinct(claims)|
    ensures i < |claims| && FirstUse(claims, i) ==>
              |Distinct(claims[..i])| < |Distinct(claims)|
  {
    var before, all := Distinct(claims[..i]), Distinct(claims);
    assert before <= all;
    SubsetSize(before, all);
    if i < |claims| && FirstUse(claims, i) {
      assert before <= all - {claims[i]};
      SubsetSize(before, all - {claims[i]});
    }
  }

  /** Every claim answers true exactly when it is its timer's first. */
  ghost predicate OnceOnly(claims: seq<Timer>) {
    forall i: nat :: i < |claims| ==> (Answer(claims, i) <==> FirstUse(claims, i))
  }

  /** With more than eight timers, the ninth one's first claim is turned down. */
  lemma {:induction false} UnservedTimer(claims: seq<Timer>) returns (i: nat)
    requires |Distinct(claims)| > SLOTS
    ensures i < |claims| && FirstUse(claims, i) && !Answer(claims, i)
  {
    assert Distinct([]) == {};
    var n := |claims| - 1;
    var prefix, t := claims[..n], claims[n];
    assert claims == prefix + [t];
    if |Distinct(prefix)| > SLOTS {
      i := UnservedTimer(prefix);
      assert claims[..i] == prefix[..i];
    } else {
      i := n;
      OwnersCount(prefix);
      assert Distinct(claims) == Distinct(prefix) + if t == NULL || t in prefix then {} else {t};
    }
  }

  /** Each timer's base is initialized exactly once, at its first claim, if and only if there are at
      most eight different timers. */
  lemma OnceOnlyIff(claims: seq<Timer>)
    ensures OnceOnly(claims) <==> |Distinct(claims)| <= 8
  {
    if |Distinct(claims)| <= SLOTS {
      forall i: nat | i < |claims|
        ensures Answer(claims, i) <==> FirstUse(claims, i)
      {
        OwnersCount(claims[..i]);
        DistinctGrows(claims, i);
      }
    } else {
      var i := UnservedTimer(claims);
    }
  }
}
