/** Text helpers the ticket layer relies on: Java's `String.trim()` and the
    "blank after trim" test, the substring test behind `LIKE '%term%'`, and the
    decimal rendering and parsing of ids (`"..." + long`, `Integer.parseInt`). */
module Textos {

  /** Java's `trim()` drops every leading and trailing char whose code is at
      most U+0020. */
  predicate EhEspaco(c: char) {
    c <= ' '
  }

  function TrimInicio(s: string): (r: string)
    ensures |r| <= |s| && r == s[|s| - |r|..]
    ensures r != [] ==> !EhEspaco(r[0])
    ensures forall i :: 0 <= i < |s| - |r| ==> EhEspaco(s[i])
  {
    if |s| > 0 && EhEspaco(s[0]) then
      var r := TrimInicio(s[1..]);
      assert s[1..][|s| - 1 - |r|..] == s[|s| - |r|..];
      assert forall i :: 0 < i < |s| ==> s[i] == s[1..][i - 1];
      r
    else s
  }

  function TrimFim(s: string): (r: string)
    ensures |r| <= |s| && r == s[..|r|]
    ensures r != [] ==> !EhEspaco(r[|r| - 1])
    ensures forall i :: |r| <= i < |s| ==> EhEspaco(s[i])
  {
    if |s| > 0 && EhEspaco(s[|s| - 1]) then
      var r := TrimFim(s[..|s| - 1]);
      assert s[..|s| - 1][..|r|] == s[..|r|];
      assert forall i :: 0 <= i < |s| - 1 ==> s[i] == s[..|s| - 1][i];
      r
    else s
  }

  /** `String.trim()`: the first and last chars left are not whitespace. */
  function Trim(s: string): (r: string)
    ensures |r| <= |s|
    ensures r != [] ==> !EhEspaco(r[0]) && !EhEspaco(r[|r| - 1])
  {
    TrimFim(TrimInicio(s))
  }

  /** What `trim()` returns is a window of its input. */
  lemma TrimEhTrecho(s: string)
    ensures OcorreEm(s, Trim(s))
  {
    var a := TrimInicio(s);
    var r := TrimFim(a);
    var k := |s| - |a|;
    assert a == s[k..] && r == a[..|r|];
    assert s[k..][..|r|] == s[k..k + |r|];
    assert OcorreNa(s, r, k);
  }

  /** Every char of `s` is whitespace. */
  predicate TudoEspaco(s: string) {
    forall i :: 0 <= i < |s| ==> EhEspaco(s[i])
  }

  /** `trim()` keeps the widest window whose ends are not whitespace: only
      whitespace lies before and after it. */
  lemma TrimJanelaMaxima(s: string)
    ensures exists a, b :: 0 <= a <= b <= |s| && Trim(s) == s[a..b]
                           && TudoEspaco(s[..a]) && TudoEspaco(s[b..])
  {
    var t := TrimInicio(s);
    var r := TrimFim(t);
    var a := |s| - |t|;
    var b := a + |r|;
    assert t == s[a..] && r == t[..|r|];
    assert s[a..][..|r|] == s[a..b];
    assert forall i :: 0 <= i < a ==> s[..a][i] == s[i];
    assert forall i :: 0 <= i < |s| - b ==> s[b..][i] == t[|r| + i];
    assert TudoEspaco(s[..a]) && TudoEspaco(s[b..]);
  }

  /** Trimming leaves nothing exactly when every char is whitespace. */
  lemma BrancoSseTudoEspaco(s: string)
    ensures Trim(s) == "" <==> TudoEspaco(s)
  {
    var a := TrimInicio(s);
    if Trim(s) == "" {
      assert a == [];
    } else {
      var r := Trim(s);
      assert r[0] == a[0];
      assert a[0] == s[|s| - |a|];
    }
  }

  /** `s.trim().isEmpty()`, the test the source applies to titles,
      descriptions and search terms: the string holds whitespace only. */
  function EhBranco(s: string): (b: bool)
    ensures b <==> TudoEspaco(s)
  {
    BrancoSseTudoEspaco(s);
    Trim(s) == ""
  }

  /** Trimming is idempotent. */
  lemma {:induction false} TrimIdempotente(s: string)
    ensures Trim(Trim(s)) == Trim(s)
  {
    var r := Trim(s);
    if r != [] {
      assert TrimInicio(r) == r;
      assert TrimFim(r) == r;
    }
  }

  /** `termo` occurs in `s` starting at position `i`. */
  predicate OcorreNa(s: string, termo: string, i: int) {
    0 <= i && i + |termo| <= |s| && s[i..i + |termo|] == termo
  }

  /** The reference reading: some window of `s` equals `termo`. */
  ghost predicate OcorreEm(s: string, termo: string) {
    exists i :: OcorreNa(s, termo, i)
  }

  /** An occurrence is either at the front or in the tail. */
  lemma OcorreEmPasso(s: string, termo: string)
    ensures OcorreEm(s, termo) <==> |termo| <= |s| && (s[..|termo|] == termo || OcorreEm(s[1..], termo))
  {
    if |termo| <= |s| {
      if s[..|termo|] == termo {
        assert OcorreNa(s, termo, 0);
      } else {
        if OcorreEm(s[1..], termo) {
          var i :| OcorreNa(s[1..], termo, i);
          assert s[i + 1..i + 1 + |termo|] == s[1..][i..i + |termo|];
          assert OcorreNa(s, termo, i + 1);
        }
        if OcorreEm(s, termo) {
          var i :| OcorreNa(s, termo, i);
          assert i != 0;
          assert s[1..][i - 1..i - 1 + |termo|] == s[i..i + |termo|];
          assert OcorreNa(s[1..], termo, i - 1);
        }
      }
    } else {
      assert !OcorreEm(s, termo);
    }
  }

  /** `LIKE '%termo%'` read as a plain substring test, by recursion on the
      haystack: it holds exactly when some window of `s` equals `termo`. */
  function ContemTexto(s: string, termo: string): (r: bool)
    ensures r <==> OcorreEm(s, termo)
    decreases |s|
  {
    OcorreEmPasso(s, termo);
    |termo| <= |s| && (s[..|termo|] == termo || ContemTexto(s[1..], termo))
  }

  // ---- decimal ids --------------------------------------------------------

  function Digito(d: nat): (c: char)
    requires d < 10
    ensures '0' <= c <= '9' && c as int - '0' as int == d
  {
    (('0' as int) + d) as char
  }

  predicate SoDigitos(s: string) {
    forall i :: 0 <= i < |s| ==> '0' <= s[i] <= '9'
  }

  /** The decimal text Java produces for a non-negative integer. */
  function NatParaTexto(n: nat): (r: string)
    ensures |r| > 0 && SoDigitos(r)
    ensures |r| > 1 ==> r[0] != '0'
  {
    if n < 10 then [Digito(n)] else NatParaTexto(n / 10) + [Digito(n % 10)]
  }

  function Pot10(k: nat): (p: nat)
    ensures p >= 1
  {
    if k == 0 then 1 else 10 * Pot10(k - 1)
  }

  /** `Integer.parseInt` on a string of digits: `k` digits hold a value
      below `10^k`. */
  function TextoParaNat(s: string): (n: nat)
    requires SoDigitos(s)
    ensures n < Pot10(|s|)
  {
    if s == [] then 0
    else TextoParaNat(s[..|s| - 1]) * 10 + (s[|s| - 1] as int - '0' as int)
  }

  /** Parsing the rendered id gives the id back, so the id embedded in a
      success message identifies the new row. */
  lemma {:induction false} TextoParaNatInverte(n: nat)
    ensures TextoParaNat(NatParaTexto(n)) == n
  {
    var s := NatParaTexto(n);
    if n >= 10 {
      TextoParaNatInverte(n / 10);
      assert s[..|s| - 1] == NatParaTexto(n / 10);
    }
  }

  lemma NatParaTextoInjetiva(m: nat, n: nat)
    requires NatParaTexto(m) == NatParaTexto(n)
    ensures m == n
  {
    TextoParaNatInverte(m);
    TextoParaNatInverte(n);
  }
}
