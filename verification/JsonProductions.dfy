/** Strings and numbers by the productions of sections 6 and 7 of RFC 8259, as sets of texts, and that the grammar's
    ends are theirs. */
module JsonProductions {
  import opened Common
  import opened JsonGrammar

  /** char*: unescaped characters and escapes. */
  predicate Chars(s: Text) {
    || s == ""
    || (s[0] != '"' && s[0] != '\\' && s[0] as int >= 0x20 && Chars(s[1..]))
    || (|s| >= 2 && s[0] == '\\' && s[1] in {'"', '\\', '/', 'b', 'f', 'n', 'r', 't'} && Chars(s[2..]))
    || (|s| >= 6 && s[0] == '\\' && s[1] == 'u' && (forall k :: 2 <= k < 6 ==> HexDigit(s[k])) && Chars(s[6..]))
  }

  predicate HexDigit(c: char) {
    c in {'0', '1', '2', '3', '4', '5', '6', '7', '8', '9', 'A', 'B', 'C', 'D', 'E', 'F', 'a', 'b', 'c', 'd', 'e', 'f'}
  }

  predicate Digit(c: char) { c in {'0', '1', '2', '3', '4', '5', '6', '7', '8', '9'} }

  lemma ClassesAre(c: char)
    ensures IsHex(c) <==> HexDigit(c)
    ensures IsDigit(c) <==> Digit(c)
    ensures IsWs(c) <==> c as int in {0x20, 0x09, 0x0A, 0x0D}
  {
  }

  /** A string whose content starts at i ends at e exactly when the content up to e is char* and a quotation mark. */
  lemma {:induction false} StrIs(b: Text, i: nat, e: nat)
    requires i <= |b|
    ensures StrEnd(b, i) == Some(e) <==> i < e <= |b| && b[e - 1] == '"' && Chars(b[i..e - 1])
    decreases |b| - i
  {
    hide HexDigit, IsHex;
    if i < |b| {
      forall c: char ensures IsHex(c) <==> HexDigit(c) { ClassesAre(c); }
      if b[i] == '"' {
        if i + 1 < e <= |b| { assert b[i..e - 1][0] == '"'; }
      } else if b[i] != '\\' {
        StrIs(b, i + 1, e);
        if i + 1 < e <= |b| { Tail(b, i, e, 1); }
      } else {
        EscapeIs(b, i, e);
      }
    }
  }

  lemma Tail(b: Text, i: nat, e: nat, n: nat)
    requires i + n <= e - 1 < |b|
    ensures b[i..e - 1][n..] == b[i + n..e - 1]
  {
  }

  lemma {:induction false} EscapeIs(b: Text, i: nat, e: nat)
    requires i < |b| && b[i] == '\\'
    ensures StrEnd(b, i) == Some(e) <==> i < e <= |b| && b[e - 1] == '"' && Chars(b[i..e - 1])
    decreases |b| - i, 0
  {
    hide HexDigit, IsHex;
    forall c: char ensures IsHex(c) <==> HexDigit(c) { ClassesAre(c); }
    if i + 2 <= |b| { StrIs(b, i + 2, e); }
    if i + 6 <= |b| { StrIs(b, i + 6, e); }
    if i < e - 1 < |b| {
      var s := b[i..e - 1];
      assert s[0] == '\\';
      if i + 2 <= e - 1 {
        Tail(b, i, e, 2);
        assert s[1] == b[i + 1];
      }
      if i + 6 <= e - 1 {
        Tail(b, i, e, 6);
        assert s[2] == b[i + 2] && s[3] == b[i + 3] && s[4] == b[i + 4] && s[5] == b[i + 5];
      }
    }
  }

  // --- numbers ---

  predicate Digits1(s: Text) { |s| > 0 && forall k :: 0 <= k < |s| ==> Digit(s[k]) }

  /** int: zero, or digits that do not start with it. */
  predicate IsInt(s: Text) { s == "0" || (Digits1(s) && s[0] != '0') }

  predicate IsFrac(s: Text) { s == "" || (s[0] == '.' && Digits1(s[1..])) }

  predicate IsExp(s: Text) {
    s == "" || (s[0] in {'e', 'E'} && (Digits1(s[1..]) || (|s| > 2 && s[1] in {'+', '-'} && Digits1(s[2..]))))
  }

  /** [ minus ] int [ frac ] [ exp ], cut at f and x. */
  predicate CutAt(s: Text, f: nat, x: nat) {
    var m := if s != "" && s[0] == '-' then 1 else 0;
    m <= f <= x <= |s| && IsInt(s[m..f]) && IsFrac(s[f..x]) && IsExp(s[x..])
  }

  ghost predicate IsNumber(s: Text) { exists f: nat, x: nat :: CutAt(s, f, x) }

  lemma {:induction false} DigitsAre(b: Text, i: nat, e: nat)
    requires i <= |b|
    ensures IsDigit('0') && (i < e <= |b| && Digits1(b[i..e]) && (e == |b| || !IsDigit(b[e])) ==> Digits(b, i) == e)
    ensures Digits(b, i) > i ==> Digits1(b[i..Digits(b, i)])
  {
    hide Digit, IsDigit;
    forall c: char ensures IsDigit(c) <==> Digit(c) { ClassesAre(c); }
    ClassesAre('0');
    assert Digit('0') by { ZeroIs(); }
    var d := Digits(b, i);
    if i < e <= |b| && Digits1(b[i..e]) && (e == |b| || !IsDigit(b[e])) {
      forall k | i <= k < e ensures IsDigit(b[k]) { assert b[i..e][k - i] == b[k]; }
    }
  }

  lemma ZeroIs()
    ensures Digit('0')
  {
  }

  /** After an int comes no digit: what follows it in a number is '.', 'e', 'E' or the end. */
  lemma IntIs(s: Text, m: nat, f: nat)
    requires m <= |s|
    ensures m <= f <= |s| && IsInt(s[m..f]) && (f == |s| || !IsDigit(s[f])) ==> IntEnd(s, m) == Some(f)
    ensures IntEnd(s, m).Some? ==> var n := IntEnd(s, m).value; m < n <= |s| && IsInt(s[m..n])
  {
    hide Digit, Digits;
    ZeroIs();
    ClassesAre('0');
    DigitsAre(s, m, f);
    if m < |s| { ClassesAre(s[m]); }
    if m < |s| && IsDigit(s[m]) { DigitsStart(s, m); }
    if m <= f <= |s| && IsInt(s[m..f]) { assert s[m..f][0] == s[m]; }
    if m < |s| && s[m] == '0' { assert s[m..m + 1] == "0"; }
    if IntEnd(s, m).Some? { assert s[m..IntEnd(s, m).value][0] == s[m]; }
    if m <= f <= |s| && s[m..f] == "0" { assert f == m + 1; }
  }

  lemma DigitsStart(s: Text, i: nat)
    requires i < |s| && IsDigit(s[i])
    ensures Digits(s, i) > i
  {
  }

  lemma FracIs(s: Text, n: nat, x: nat)
    requires n <= |s|
    ensures n <= x <= |s| && IsFrac(s[n..x]) && (x == |s| || (!IsDigit(s[x]) && s[x] != '.')) ==>
              FracEnd(s, n) == Some(x)
    ensures FracEnd(s, n).Some? ==> var f := FracEnd(s, n).value; n <= f <= |s| && IsFrac(s[n..f])
  {
    hide Digit, Digits;
    if n < |s| && s[n] == '.' {
      DigitsAre(s, n + 1, x);
      if n + 1 < |s| && IsDigit(s[n + 1]) { DigitsStart(s, n + 1); }
      if n < x <= |s| { Tail2(s, n, x, 1); }
      if FracEnd(s, n).Some? { Tail2(s, n, FracEnd(s, n).value, 1); }
      if n + 1 < x <= |s| && Digits1(s[n + 1..x]) {
        assert s[n + 1..x][0] == s[n + 1];
        ClassesAre(s[n + 1]);
      }
    }
    if n < x <= |s| { assert s[n..x][0] == s[n]; }
  }

  lemma Tail2(s: Text, i: nat, e: nat, n: nat)
    requires i + n <= e <= |s|
    ensures s[i..e][n..] == s[i + n..e] && (n > 0 ==> s[i..e][0] == s[i])
  {
  }

  lemma ExpIs(s: Text, f: nat)
    requires f <= |s|
    ensures IsExp(s[f..]) <==> ExpEnd(s, f) == Some(|s|)
  {
    hide Digit, Digits, IsDigit;
    if f < |s| && (s[f] == 'e' || s[f] == 'E') {
      var signed := f + 1 < |s| && (s[f + 1] == '+' || s[f + 1] == '-');
      var d := if signed then f + 2 else f + 1;
      DigitsAre(s, d, |s|);
      assert s[f..][1..] == s[f + 1..] && s[f..][0] == s[f];
      if f + 1 < |s| {
        assert s[f..][1] == s[f + 1] == s[f + 1..][0];
        ClassesAre(s[f + 1]);
      }
      if f + 2 <= |s| { assert s[f..][2..] == s[f + 2..]; }
      SignsAre();
      if d < |s| {
        ClassesAre(s[d]);
        assert s[d..][0] == s[d];
        if IsDigit(s[d]) { DigitsStart(s, d); }
      }
      assert d <= |s| ==> s[d..|s|] == s[d..];
    } else if f < |s| {
      assert s[f..][0] == s[f];
    }
  }

  lemma SignsAre()
    ensures !Digit('+') && !Digit('-')
  {
  }

  /** A text is read to its end as a number exactly when it is one. */
  lemma NumIs(s: Text)
    ensures NumEnd(s, 0) == Some(|s|) <==> IsNumber(s)
  {
    hide IntEnd, FracEnd, ExpEnd, IsInt, IsFrac, IsExp, IsDigit;
    var m: nat := if s != "" && s[0] == '-' then 1 else 0;
    IntIs(s, m, 0);
    if NumEnd(s, 0) == Some(|s|) {
      var n := IntEnd(s, m).value;
      FracIs(s, n, 0);
      var x := FracEnd(s, n).value;
      ExpIs(s, x);
      assert CutAt(s, n, x);
    }
    if IsNumber(s) {
      var f: nat, x: nat :| CutAt(s, f, x);
      Heads(s, f, x);
      IntIs(s, m, f);
      FracIs(s, f, x);
      ExpIs(s, x);
    }
  }

  /** What follows the int and the fraction starts with no digit. */
  lemma Heads(s: Text, f: nat, x: nat)
    requires f <= x <= |s| && IsFrac(s[f..x]) && IsExp(s[x..])
    ensures (f == |s| || !IsDigit(s[f])) && (x == |s| || (!IsDigit(s[x]) && s[x] != '.'))
  {
    if f < x { assert s[f..x][0] == s[f]; }
    if x < |s| { assert s[x..][0] == s[x]; }
  }
}
