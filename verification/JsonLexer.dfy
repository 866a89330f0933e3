/** The validating lexer of the hot paths of ingest: it accepts exactly the values of the grammar, up to its depth. */
module JsonLexer {
  import opened Common
  import opened JsonGrammar

  const MAX_DEPTH := 64

  predicate Ascii(s: Text) { forall k: nat :: k < |s| ==> s[k] < '\U{0080}' }

  predicate Unescaped(s: Text) { forall k: nat :: k < |s| ==> s[k] != '\\' }

  lemma OneMore(s: Text, c: char)
    ensures Ascii(s + [c]) == (Ascii(s) && c < '\U{0080}') && Unescaped(s + [c]) == (Unescaped(s) && c != '\\')
  {
    assert (s + [c])[|s|] == c;
    forall k: nat | k < |s| ensures (s + [c])[k] == s[k] {}
  }

  /** `utf8` tells valid UTF-8, for text with bytes outside ASCII. */
  class Lexer {
    const b: Text
    const utf8: Text -> bool
    var i: nat

    ghost predicate Valid()
      reads this
    {
      i <= |b|
    }

    constructor (b: Text, utf8: Text -> bool)
      ensures Valid() && i == 0 && this.b == b && this.utf8 == utf8
    {
      this.b, this.utf8, i := b, utf8, 0;
    }

    method SkipWs()
      requires Valid()
      modifies this
      ensures Valid() && i == Ws(b, old(i))
    {
      while i < |b| && IsWs(b[i])
        invariant Valid() && Ws(b, i) == Ws(b, old(i))
        decreases |b| - i
      {
        i := i + 1;
      }
    }

    method Eat(c: char) returns (ok: bool)
      requires Valid()
      modifies this
      ensures Valid() && ok == IsAt(b, old(i), c) && i == if ok then old(i) + 1 else old(i)
    {
      ok := i < |b| && b[i] == c;
      if ok {
        i := i + 1;
      }
    }

    /** Reads the string at i. It is plain when its content is its text: no escapes, and valid UTF-8. */
    method Str() returns (s: Text, plain: bool, ok: bool)
      requires Valid() && IsAt(b, i, '"')
      modifies this
      ensures Valid() && ok == StrEnd(b, old(i) + 1).Some?
      ensures i == if ok then StrEnd(b, old(i) + 1).value else old(i)
      ensures ok ==> s == b[old(i) + 1..i - 1] && plain == (Unescaped(s) && (Ascii(s) || utf8(s)))
    {
      var start := i + 1;
      s, plain, ok := [], true, false;
      var ascii := true;
      var k := start;
      while k < |b|
        invariant start <= k <= |b| && i == old(i) && StrEnd(b, k) == StrEnd(b, start) && !ok
        invariant plain == Unescaped(b[start..k]) && (plain ==> ascii == Ascii(b[start..k]))
        decreases |b| - k
      {
        var c := b[k];
        if c == '"' {
          i := k + 1;
          s := b[start..k];
          if plain && !ascii {
            plain := utf8(s);
          }
          return s, plain, true;
        } else if c == '\\' {
          plain := false;
          if k + 1 >= |b| {
            return [], false, false;
          }
          var n := EscapeLen(k);
          if n == 0 {
            return [], false, false;
          }
          ghost var s' := b[start..k + n];
          assert s'[k - start] == '\\' && !Unescaped(s');
          k := k + n;
        } else if c < ' ' {
          return [], false, false;
        } else {
          if c >= '\U{0080}' {
            ascii := false;
          }
          OneMore(b[start..k], c);
          assert b[start..k + 1] == b[start..k] + [c];
          k := k + 1;
        }
      }
      return [], false, false;
    }

    /** The length of the escape at k, 0 when it is none. */
    method EscapeLen(k: nat) returns (n: nat)
      requires IsAt(b, k, '\\') && k + 1 < |b|
      ensures n == 0 ==> StrEnd(b, k).None?
      ensures n > 0 ==> n >= 2 && k + n <= |b| && StrEnd(b, k) == StrEnd(b, k + n)
    {
      match b[k + 1] {
        case '"' | '\\' | '/' | 'b' | 'f' | 'n' | 'r' | 't' =>
          n := 2;
        case 'u' =>
          n := if k + 5 >= |b| || !IsHex(b[k + 2]) || !IsHex(b[k + 3]) || !IsHex(b[k + 4]) || !IsHex(b[k + 5]) then 0
              else 6;
        case _ =>
          n := 0;
      }
    }

    method SkipDigits(k: nat) returns (j: nat)
      requires k <= |b|
      ensures j == Digits(b, k)
    {
      j := k;
      while j < |b| && IsDigit(b[j])
        invariant k <= j <= |b| && Digits(b, j) == Digits(b, k)
      {
        j := j + 1;
      }
    }

    /** The parts of a number: digits, a fraction, an exponent. Each gives where it ends. */
    method IntPart(k: nat) returns (e: Option<nat>)
      requires k <= |b|
      ensures e == IntEnd(b, k)
    {
      if k < |b| && b[k] == '0' {
        return Some(k + 1);
      }
      if k < |b| && '1' <= b[k] <= '9' {
        var j := SkipDigits(k);
        return Some(j);
      }
      return None;
    }

    method FracPart(k: nat) returns (e: Option<nat>)
      requires k <= |b|
      ensures e == FracEnd(b, k)
    {
      if k >= |b| || b[k] != '.' {
        return Some(k);
      }
      if k + 1 >= |b| || !IsDigit(b[k + 1]) {
        return None;
      }
      var j := SkipDigits(k + 1);
      return Some(j);
    }

    method ExpPart(k: nat) returns (e: Option<nat>)
      requires k <= |b|
      ensures e == ExpEnd(b, k)
    {
      if k >= |b| || (b[k] != 'e' && b[k] != 'E') {
        return Some(k);
      }
      var j := k + 1;
      if j < |b| && (b[j] == '+' || b[j] == '-') {
        j := j + 1;
      }
      if j >= |b| || !IsDigit(b[j]) {
        return None;
      }
      j := SkipDigits(j);
      return Some(j);
    }

    /** Reads a number. */
    method Num() returns (text: Text, ok: bool)
      requires Valid()
      modifies this
      ensures Valid() && ok == NumEnd(b, old(i)).Some?
      ensures if ok then i == NumEnd(b, old(i)).value && old(i) < i && text == b[old(i)..i] else i == old(i)
    {
      if NumEnd(b, i).Some? { NumIs(b, i); }
      hide ExpEnd;
      text, ok := [], false;
      var n := IntPart(if i < |b| && b[i] == '-' then i + 1 else i);
      if n.None? {
        return;
      }
      var f := FracPart(n.value);
      if f.None? {
        return;
      }
      var e := ExpPart(f.value);
      if e.Some? {
        text := b[i..e.value];
        i, ok := e.value, true;
      }
    }

    method Lit(word: Text) returns (ok: bool)
      requires Valid()
      modifies this
      ensures Valid() && ok == LitEnd(b, old(i), word).Some? && i == if ok then LitEnd(b, old(i), word).value
                else old(i)
    {
      ok := !(|b| - i < |word| || b[i..i + |word|] != word);
      if ok {
        i := i + |word|;
      }
    }

    /** A value that is no string, object or array. */
    method Plain() returns (ok: bool)
      requires Valid()
      modifies this
      ensures Valid() && ok == PlainEnd(b, old(i)).Some? && (ok ==> i == PlainEnd(b, old(i)).value)
    {
      if i < |b| && b[i] == 't' {
        ok := Lit("true");
      } else if i < |b| && b[i] == 'f' {
        ok := Lit("false");
      } else if i < |b| && b[i] == 'n' {
        ok := Lit("null");
      } else {
        var text;
        text, ok := Num();
      }
    }

    /** A member's name and colon, in an object. */
    method Name(c: char) returns (ok: bool)
      requires Valid() && Opener(c)
      modifies this
      ensures Valid() && ok == NameEnd(b, old(i), c).Some? && (ok ==> i == NameEnd(b, old(i), c).value)
    {
      if c != '{' {
        return true;
      }
      SkipWs();
      if i >= |b| || b[i] != '"' {
        return false;
      }
      var s, plain, isStr := Str();
      if !isStr {
        return false;
      }
      SkipWs();
      ok := Eat(':');
    }

    /** Validates and skips one value, after white space. It accepts exactly the values of the grammar with no more
        than MAX_DEPTH levels of nesting, and stops at the value's end. */
    method Skip(depth: nat) returns (ok: bool)
      requires Valid() && depth <= MAX_DEPTH
      modifies this
      ensures Valid() && ok == ValueEnd(b, old(i), MAX_DEPTH - depth).Some?
              && (ok ==> i == ValueEnd(b, old(i), MAX_DEPTH - depth).value)
      decreases MAX_DEPTH - depth
    {
      SkipWs();
      if i < |b| && b[i] == '"' {
        var s, plain;
        s, plain, ok := Str();
        return;
      }
      if i >= |b| || !Opener(b[i]) {
        ok := Plain();
        return;
      }
      if depth >= MAX_DEPTH {
        return false;
      }
      var c := b[i];
      i := i + 1;
      SkipWs();
      ok := Eat(Closer(c));
      if ok {
        return;
      }
      ghost var want := MembersEnd(b, i, MAX_DEPTH - depth, c);
      assert want == ValueEnd(b, old(i), MAX_DEPTH - depth);
      ok := Members(depth, c);
    }

    /** The members of an object or array up to its end. */
    method Members(depth: nat, c: char) returns (ok: bool)
      requires Valid() && depth < MAX_DEPTH && Opener(c)
      modifies this
      ensures Valid() && ok == MembersEnd(b, old(i), MAX_DEPTH - depth, c).Some?
              && (ok ==> i == MembersEnd(b, old(i), MAX_DEPTH - depth, c).value)
      decreases MAX_DEPTH - depth, 0
    {
      hide NameEnd, StrEnd, PlainEnd, Ws;
      ghost var want := MembersEnd(b, i, MAX_DEPTH - depth, c);
      ok := true;
      var more := true;
      while more
        invariant Valid() && (more ==> MembersEnd(b, i, MAX_DEPTH - depth, c) == want)
        invariant !more ==> ok == want.Some? && (ok ==> i == want.value)
        decreases more, |b| - i
      {
        ghost var i0 := i;
        var named := Name(c);
        if !named {
          return false;
        }
        var value := Skip(depth + 1);
        if !value {
          return false;
        }
        SkipWs();
        more := Eat(',');
        if !more {
          ok := Eat(Closer(c));
        }
      }
    }
  }
}
