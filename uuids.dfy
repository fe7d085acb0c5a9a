/** The `uuid.uuid4()` oracle, as a generator that never repeats a string.
    Random uuids are replaced by a counter written in hexadecimal: the model
    relies only on freshness and on the absence of '_' in a uuid. */
module Uuids {

  function HexDigit(d: nat): (c: char)
    requires d < 16
    ensures c != '_'
  {
    if d < 10 then (48 + d) as char else (87 + d) as char
  }

  lemma HexDigitInjective(d: nat, e: nat)
    requires d < 16 && e < 16
    ensures HexDigit(d) == HexDigit(e) ==> d == e
  {
  }

  /** The lower-case hexadecimal rendering of n, without leading zeros. */
  function Hex(n: nat): (s: string)
    ensures |s| >= 1
    ensures n >= 16 ==> |s| >= 2
    ensures forall i :: 0 <= i < |s| ==> s[i] != '_'
  {
    if n < 16 then [HexDigit(n)] else Hex(n / 16) + [HexDigit(n % 16)]
  }

  /** Distinct counters give distinct uuids. */
  lemma {:induction false} HexInjective(m: nat, n: nat)
    ensures Hex(m) == Hex(n) ==> m == n
  {
    if Hex(m) == Hex(n) {
      if m < 16 && n < 16 {
        HexDigitInjective(m, n);
      } else if m >= 16 && n >= 16 {
        var hm, hn := Hex(m), Hex(n);
        assert hm[|hm| - 1] == HexDigit(m % 16);
        assert hn[|hn| - 1] == HexDigit(n % 16);
        HexDigitInjective(m % 16, n % 16);
        assert hm[..|hm| - 1] == Hex(m / 16);
        assert hn[..|hn| - 1] == Hex(n / 16);
        HexInjective(m / 16, n / 16);
      }
    }
  }

  /** The uuids handed out by the first n calls. */
  ghost function IssuedBefore(n: nat): set<string> {
    if n == 0 then {} else IssuedBefore(n - 1) + {Hex(n - 1)}
  }

  lemma {:induction false} NotYetIssued(n: nat, m: nat)
    requires n <= m
    ensures Hex(m) !in IssuedBefore(n)
  {
    if n > 0 {
      NotYetIssued(n - 1, m);
      HexInjective(n - 1, m);
    }
  }

  class UuidSource {
    var counter: nat
    ghost var issued: set<string>

    ghost predicate Valid()
      reads this
    {
      issued == IssuedBefore(counter)
    }

    constructor ()
      ensures Valid() && issued == {}
    {
      counter := 0;
      issued := {};
    }

    /** `str(uuid.uuid4())`: a string never returned before, without '_'. */
    method NewUuid() returns (u: string)
      requires Valid()
      modifies this
      ensures Valid()
      ensures u !in old(issued) && issued == old(issued) + {u}
      ensures forall i :: 0 <= i < |u| ==> u[i] != '_'
    {
      u := Hex(counter);
      NotYetIssued(counter, counter);
      counter := counter + 1;
      issued := issued + {u};
    }
  }
}
