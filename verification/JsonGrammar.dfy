/** Where a JSON value of a text ends, by the grammar of sections 2 to 7 of RFC 8259 with bounded nesting. */
module JsonGrammar {
  import opened Common

  type Text = seq<char>

  predicate IsWs(c: char) { c == ' ' || c == '\t' || c == '\r' || c == '\n' }

  predicate IsDigit(c: char) { '0' <= c <= '9' }

  predicate IsHex(c: char) { '0' <= c <= '9' || 'a' <= c <= 'f' || 'A' <= c <= 'F' }

  predicate IsAt(b: Text, i: nat, c: char) { i < |b| && b[i] == c }

  function Ws(b: Text, i: nat): (j: nat)
    requires i <= |b|
    ensures i <= j <= |b| && (j < |b| ==> !IsWs(b[j])) && forall k: nat :: i <= k < j ==> IsWs(b[k])
    decreases |b| - i
  {
    if i < |b| && IsWs(b[i]) then Ws(b, i + 1) else i
  }

  /** The end of a string whose content goes on at i. */
  function StrEnd(b: Text, i: nat): (e: Option<nat>)
    ensures e.Some? ==> i < e.value <= |b| && b[e.value - 1] == '"'
    decreases |b| - i
  {
    if i >= |b| then None
    else if b[i] == '"' then Some(i + 1)
    else if b[i] == '\\' then
      if i + 1 >= |b| then None
      else if b[i + 1] in "\"\\/bfnrt" then StrEnd(b, i + 2)
      else if b[i + 1] == 'u' && i + 5 < |b| && IsHex(b[i + 2]) && IsHex(b[i + 3]) && IsHex(b[i + 4])
          && IsHex(b[i + 5]) then StrEnd(b, i + 6)
      else None
    else if b[i] < ' ' then None
    else StrEnd(b, i + 1)
  }

  function Digits(b: Text, i: nat): (j: nat)
    requires i <= |b|
    ensures i <= j <= |b| && (j < |b| ==> !IsDigit(b[j])) && forall k: nat :: i <= k < j ==> IsDigit(b[k])
    decreases |b| - i
  {
    if i < |b| && IsDigit(b[i]) then Digits(b, i + 1) else i
  }

  /** One digit or more. */
  function SomeDigits(b: Text, i: nat): Option<nat> { if i < |b| && IsDigit(b[i]) then Some(Digits(b, i)) else None }

  function IntEnd(b: Text, i: nat): Option<nat> {
    if IsAt(b, i, '0') then Some(i + 1) else if i < |b| && IsDigit(b[i]) then Some(Digits(b, i)) else None
  }

  function FracEnd(b: Text, i: nat): Option<nat> { if IsAt(b, i, '.') then SomeDigits(b, i + 1) else Some(i) }

  function ExpEnd(b: Text, i: nat): Option<nat> {
    if IsAt(b, i, 'e') || IsAt(b, i, 'E') then SomeDigits(b, if IsAt(b, i + 1, '+') || IsAt(b, i + 1, '-') then i + 2
        else i + 1) else Some(i)
  }

  function NumEnd(b: Text, i: nat): Option<nat> {
    var n := IntEnd(b, if IsAt(b, i, '-') then i + 1 else i);
    if n.None? then None else
      var f := FracEnd(b, n.value);
      if f.None? then None else ExpEnd(b, f.value)
  }

  function LitEnd(b: Text, i: nat,
                  word: Text): Option<nat> { if i + |word| <= |b| && b[i..i + |word|] == word then Some(i + |word|)
                  else None }

  /** The end of a value that is no string, object or array. */
  function PlainEnd(b: Text, i: nat): Option<nat> {
    if IsAt(b, i, 't') then LitEnd(b, i, "true")
    else if IsAt(b, i, 'f') then LitEnd(b, i, "false")
    else if IsAt(b, i, 'n') then LitEnd(b, i, "null")
    else NumEnd(b, i)
  }

  /** A character that ends a value which has no end of its own. */
  predicate Delimiter(c: char) { c == ',' || c == ']' || c == '}' || IsWs(c) }

  /** A character of a number, true, false or null. */
  predicate PlainChar(c: char) { !Delimiter(c) && c != '"' && c != '{' && c != '[' }

  lemma LitIs(b: Text, i: nat, word: Text)
    requires LitEnd(b, i, word).Some? && word in {"true", "false", "null"}
    ensures i < LitEnd(b, i, word).value <= |b| && forall k: nat :: i <= k < LitEnd(b, i, word).value ==>
              PlainChar(b[k])
  {
    forall k: nat | i <= k < i + |word| ensures PlainChar(b[k]) { assert b[k] == b[i..i + |word|][k - i]; }
  }

  lemma NumIs(b: Text, i: nat)
    requires NumEnd(b, i).Some?
    ensures i < NumEnd(b, i).value <= |b| && forall k: nat :: i <= k < NumEnd(b, i).value ==> PlainChar(b[k])
  {
    var n := IntEnd(b, if IsAt(b, i, '-') then i + 1 else i);
    assert i < n.value <= |b| && forall k: nat :: i <= k < n.value ==> PlainChar(b[k]);
    var f := FracEnd(b, n.value);
    assert n.value <= f.value <= |b| && forall k: nat :: n.value <= k < f.value ==> PlainChar(b[k]);
    var e := ExpEnd(b, f.value);
    assert f.value <= e.value <= |b| && forall k: nat :: f.value <= k < e.value ==> PlainChar(b[k]);
  }

  lemma PlainIs(b: Text, i: nat)
    requires PlainEnd(b, i).Some?
    ensures i < PlainEnd(b, i).value <= |b| && forall k: nat :: i <= k < PlainEnd(b, i).value ==> PlainChar(b[k])
  {
    hide LitEnd, NumEnd, PlainChar;
    if IsAt(b, i, 't') { LitIs(b, i, "true"); }
    else if IsAt(b, i, 'f') { LitIs(b, i, "false"); }
    else if IsAt(b, i, 'n') { LitIs(b, i, "null"); }
    else { NumIs(b, i); }
  }

  predicate Opener(c: char) { c == '{' || c == '[' }

  function Closer(c: char): char { if c == '{' then '}' else ']' }

  /** The end of the value at i, white space before it skipped, with `room` levels of nesting left. */
  function ValueEnd(b: Text, i: nat, room: nat): (e: Option<nat>)
    requires i <= |b|
    ensures e.Some? ==> i < e.value <= |b|
    decreases |b| - i, 0
  {
    var i := Ws(b, i);
    if IsAt(b, i, '"') then StrEnd(b, i + 1)
    else if i < |b| && Opener(b[i]) then
      if room == 0 then None else
        var j := Ws(b, i + 1);
        if IsAt(b, j, Closer(b[i])) then Some(j + 1) else MembersEnd(b, j, room, b[i])
    else
      var e := PlainEnd(b, i);
      if e.Some? then PlainIs(b, i); e else None
  }

  /** Where the value of a member starts: in an object after its name and colon. */
  function NameEnd(b: Text, i: nat, c: char): (e: Option<nat>)
    requires i <= |b|
    ensures e.Some? ==> i <= e.value <= |b|
  {
    if c == '[' then Some(i) else
      var i := Ws(b, i);
      if !IsAt(b, i, '"') then None else
        var s := StrEnd(b, i + 1);
        if s.None? then None else
          var j := Ws(b, s.value);
          if IsAt(b, j, ':') then Some(j + 1) else None
  }

  /** The end of an object or array, opened by c, that goes on with a member at i. */
  function MembersEnd(b: Text, i: nat, room: nat, c: char): (e: Option<nat>)
    requires i <= |b| && room > 0
    ensures e.Some? ==> i < e.value <= |b|
    decreases |b| - i, 1
  {
    var v := NameEnd(b, i, c);
    if v.None? then None else
      var e := ValueEnd(b, v.value, room - 1);
      if e.None? then None else
        var j := Ws(b, e.value);
        if IsAt(b, j, ',') then MembersEnd(b, j + 1, room, c)
        else if IsAt(b, j, Closer(c)) then Some(j + 1)
        else None
  }
}
