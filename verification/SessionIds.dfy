/**
 Session IDs: sess_<Unix seconds>_<counter> (internal/session/manager.go).
 */
module SessionIds {

  /** 2 to the 64th, where the session counter wraps. */
  const WRAP := 0x1_0000_0000_0000_0000

  function Digit(d: nat): char
    requires d < 10
  {
    '0' + d as char
  }

  function Decimal(n: nat): string {
    if n < 10 then [Digit(n)] else Decimal(n / 10) + [Digit(n % 10)]
  }

  function Signed(n: int): string {
    if n < 0 then "-" + Decimal(-n) else Decimal(n)
  }

  /** The number some digits spell. */
  function Value(s: string): int {
    if s == "" then 0 else Value(s[..|s| - 1]) * 10 + (s[|s| - 1] as int - '0' as int)
  }

  /** The rendering spells its number, with no leading zero. */
  lemma {:induction false} DecimalSpells(n: nat)
    ensures Value(Decimal(n)) == n && Decimal(n) != "" && (Decimal(n)[0] == '0' ==> n == 0)
  {
    var s := Decimal(n);
    assert s[|s| - 1] as int - '0' as int == n % 10;
    if n >= 10 {
      DecimalSpells(n / 10);
      assert s[..|s| - 1] == Decimal(n / 10);
    } else {
      assert s[..|s| - 1] == "";
    }
  }

  datatype Sid = Sid(time: int, n: nat)

  function Key(sid: Sid): string {
    "sess_" + Signed(sid.time) + "_" + Decimal(sid.n)
  }

  predicate NoUnderscore(s: string) {
    forall k :: 0 <= k < |s| ==> s[k] != '_'
  }

  lemma {:induction false} DecimalDigits(n: nat)
    ensures Decimal(n) != [] && forall k :: 0 <= k < |Decimal(n)| ==> '0' <= Decimal(n)[k] <= '9'
  {
    if n >= 10 {
      DecimalDigits(n / 10);
    }
  }

  lemma {:induction false} DecimalInjective(m: nat, n: nat)
    ensures Decimal(m) == Decimal(n) ==> m == n
    decreases m
  {
    if Decimal(m) == Decimal(n) {
      DecimalDigits(m / 10);
      DecimalDigits(n / 10);
      var a, b := Decimal(m), Decimal(n);
      assert a[|a| - 1] == Digit(m % 10) && b[|b| - 1] == Digit(n % 10);
      if m >= 10 {
        assert a[..|a| - 1] == Decimal(m / 10);
        assert n >= 10 && b[..|b| - 1] == Decimal(n / 10);
        DecimalInjective(m / 10, n / 10);
      }
    }
  }

  lemma SignedInjective(m: int, n: int)
    ensures Signed(m) == Signed(n) ==> m == n
  {
    DecimalDigits(if m < 0 then -m else m);
    DecimalDigits(if n < 0 then -n else n);
    DecimalInjective(if m < 0 then -m else m, if n < 0 then -n else n);
    assert m < 0 ==> Signed(m)[0] == '-' && Signed(m)[1..] == Decimal(-m);
    assert n < 0 ==> Signed(n)[0] == '-' && Signed(n)[1..] == Decimal(-n);
    assert Signed(m) == Signed(n) ==> (m < 0 <==> n < 0);
  }

  /** Two texts cut at their last underscore are the same only if both parts are. */
  lemma LastUnderscore(a: string, x: string, b: string, y: string)
    requires a + "_" + x == b + "_" + y && NoUnderscore(x) && NoUnderscore(y)
    ensures a == b && x == y
  {
    var s := a + "_" + x;
    assert s[|a|] == '_' && s[|b|] == '_';
    assert forall k :: |a| < k < |s| ==> s[k] == x[k - |a| - 1];
    assert forall k :: |b| < k < |s| ==> s[k] == y[k - |b| - 1];
    assert |a| == |b|;
    assert a == s[..|a|] && x == s[|a| + 1..];
    assert b == s[..|b|] && y == s[|b| + 1..];
  }

  /** Two sessions have the same ID only if time and counter agree. */
  lemma KeyInjective(a: Sid, b: Sid)
    ensures Key(a) == Key(b) <==> a == b
  {
    if Key(a) == Key(b) {
      DecimalDigits(a.n);
      DecimalDigits(b.n);
      LastUnderscore("sess_" + Signed(a.time), Decimal(a.n), "sess_" + Signed(b.time), Decimal(b.n));
      DecimalInjective(a.n, b.n);
      assert ("sess_" + Signed(a.time))[5..] == Signed(a.time);
      assert ("sess_" + Signed(b.time))[5..] == Signed(b.time);
      SignedInjective(a.time, b.time);
    }
  }
}
