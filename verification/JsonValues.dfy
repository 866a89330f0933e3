/** Objects, arrays and values by the productions of sections 2 to 7 of RFC 8259, as places in a text that may be cut
    anywhere, and that the grammar's ends are the one way to cut them. */
module JsonValues {
  import opened Common
  import opened JsonGrammar
  import opened JsonProductions

  /** ws: blanks from i to e. */
  predicate Blank(b: Text, i: nat, e: nat) {
    i <= e <= |b| && forall k: nat :: i <= k < e ==> b[k] as int in {0x20, 0x09, 0x0A, 0x0D}
  }

  /** quotation-mark *char quotation-mark. */
  predicate IsString(b: Text, i: nat, e: nat) {
    i + 2 <= e <= |b| && b[i] == '"' && b[e - 1] == '"' && Chars(b[i + 1..e - 1])
  }

  ghost predicate IsPlain(b: Text, i: nat, e: nat) {
    i < e <= |b| && (b[i..e] in {"true", "false", "null"} || IsNumber(b[i..e]))
  }

  predicate Brackets(a: char, z: char) { (a == '[' && z == ']') || (a == '{' && z == '}') }

  /** A value from i to e with at most `room` levels of nesting. */
  ghost predicate IsValue(b: Text, i: nat, e: nat, room: nat)
    decreases e - i, 0
  {
    || IsString(b, i, e)
    || IsPlain(b, i, e)
    || (room > 0 && i + 2 <= e <= |b| && Brackets(b[i], b[e - 1])
        && (Blank(b, i + 1, e - 1) || IsMembers(b, i + 1, e - 1, room - 1, b[i])))
  }

  /** One or more members, separated by commas. */
  ghost predicate IsMembers(b: Text, i: nat, e: nat, room: nat, c: char)
    requires e <= |b|
    decreases e - i, 3
  {
    || IsMember(b, i, e, room, c)
    || exists m: nat :: i <= m < e && b[m] == ',' && IsMember(b, i, m, room, c) && IsMembers(b, m + 1, e, room, c)
  }

  /** A value, in an object after its name. */
  ghost predicate IsMember(b: Text, i: nat, e: nat, room: nat, c: char)
    requires e <= |b|
    decreases e - i, 2
  {
    exists v: nat :: i <= v <= e && IsName(b, i, v, c) && IsPadded(b, v, e, room)
  }

  ghost predicate IsName(b: Text, i: nat, v: nat, c: char)
    requires v <= |b|
  {
    if c == '[' then v == i
    else exists s: nat, t: nat :: i <= s < t < v && Blank(b, i, s) && IsString(b, s, t) && Blank(b, t, v - 1)
                                  && b[v - 1] == ':'
  }

  /** A value with blanks around it. */
  ghost predicate IsPadded(b: Text, i: nat, e: nat, room: nat)
    requires e <= |b|
    decreases e - i, 1
  {
    exists s: nat, t: nat :: i <= s < t <= e && Blank(b, i, s) && IsValue(b, s, t, room) && Blank(b, t, e)
  }

  // --- blanks ---

  lemma {:induction false} BlankIs(b: Text, i: nat, s: nat)
    requires Blank(b, i, s) && (s == |b| || !IsWs(b[s]))
    ensures Ws(b, i) == s
    decreases s - i
  {
    if i < s {
      ClassesAre(b[i]);
      BlankIs(b, i + 1, s);
    }
  }

  lemma WsBlank(b: Text, i: nat)
    requires i <= |b|
    ensures Blank(b, i, Ws(b, i)) && Ws(b, Ws(b, i)) == Ws(b, i)
  {
    forall k: nat | i <= k < Ws(b, i) ensures b[k] as int in {0x20, 0x09, 0x0A, 0x0D} { ClassesAre(b[k]); }
  }

  // --- plain values ---

  predicate Ends(b: Text, e: nat) { e == |b| || (e < |b| && Delimiter(b[e])) }

  lemma DelimiterIs(c: char)
    requires Delimiter(c)
    ensures !IsDigit(c) && c !in {'-', '+', '.', 'e', 'E', '"', '[', '{', 't', 'f', 'n', ':'}
  {
  }

  lemma SliceOf(b: Text, i: nat, e: nat, x: nat, y: nat)
    requires i + x <= i + y <= e <= |b|
    ensures b[i..e][x..y] == b[i + x..i + y]
  {
    forall k: nat | k < y - x ensures b[i..e][x..y][k] == b[i + x..i + y][k] { assert b[i..e][x + k] == b[i + x + k]; }
  }

  lemma ExpTo(b: Text, x: nat, e: nat)
    requires x <= e <= |b| && Ends(b, e) && IsExp(b[x..e])
    ensures ExpEnd(b, x) == Some(e)
  {
    hide Digit, Digits, IsDigit, Delimiter;
    if e < |b| { DelimiterIs(b[e]); }
    if x < e {
      assert b[x..e][0] == b[x];
      SignsAre();
      DigitsAre(b, x + 1, e);
      SliceOf(b, x, e, 1, e - x);
      if x + 1 < e {
        assert b[x..e][1] == b[x + 1] == b[x + 1..e][0];
        ClassesAre(b[x + 1]);
        if IsDigit(b[x + 1]) { DigitsStart(b, x + 1); }
      }
      if x + 2 < e {
        SliceOf(b, x, e, 2, e - x);
        DigitsAre(b, x + 2, e);
        assert b[x + 2..e][0] == b[x + 2];
        ClassesAre(b[x + 2]);
        if IsDigit(b[x + 2]) { DigitsStart(b, x + 2); }
      }
    }
  }

  lemma ExpFrom(b: Text, x: nat)
    requires x <= |b| && ExpEnd(b, x).Some?
    ensures var e := ExpEnd(b, x).value; x <= e <= |b| && IsExp(b[x..e])
  {
    hide Digit, Digits, IsDigit;
    var e := ExpEnd(b, x).value;
    if IsAt(b, x, 'e') || IsAt(b, x, 'E') {
      var d := if IsAt(b, x + 1, '+') || IsAt(b, x + 1, '-') then x + 2 else x + 1;
      DigitsAre(b, d, 0);
      DigitsStart(b, d);
      assert b[x..e][0] == b[x] && b[x..e][1] == b[x + 1];
      SliceOf(b, x, e, d - x, e - x);
    }
  }

  /** A number ends where the grammar says, whatever delimiter follows it. */
  lemma NumberTo(b: Text, i: nat, e: nat)
    requires i < e <= |b| && Ends(b, e) && IsNumber(b[i..e])
    ensures NumEnd(b, i) == Some(e)
  {
    hide IntEnd, FracEnd, ExpEnd, IsInt, IsFrac, IsExp, IsDigit, Delimiter, Ends;
    var s := b[i..e];
    var f: nat, x: nat :| CutAt(s, f, x);
    var m: nat := if s[0] == '-' then 1 else 0;
    Heads(s, f, x);
    EndsNoDigit(b, e);
    SliceOf(b, i, e, m, f);
    SliceOf(b, i, e, f, x);
    SliceOf(b, i, e, x, e - i);
    assert s[x..] == s[x..e - i];
    IntIs(b, i + m, i + f);
    FracIs(b, i + f, i + x);
    ExpTo(b, i + x, e);
  }

  lemma EndsNoDigit(b: Text, e: nat)
    requires e <= |b| && Ends(b, e)
    ensures e == |b| || (!IsDigit(b[e]) && b[e] != '.')
  {
    if e < |b| { DelimiterIs(b[e]); }
  }

  lemma NumberFrom(b: Text, i: nat)
    requires i <= |b| && NumEnd(b, i).Some?
    ensures var e := NumEnd(b, i).value; i < e <= |b| && IsNumber(b[i..e])
  {
    hide IntEnd, FracEnd, ExpEnd, IsInt, IsFrac, IsExp, IsDigit;
    var m := if IsAt(b, i, '-') then i + 1 else i;
    IntIs(b, m, 0);
    var f := IntEnd(b, m).value;
    FracIs(b, f, 0);
    var x := FracEnd(b, f).value;
    ExpFrom(b, x);
    var e := ExpEnd(b, x).value;
    SliceOf(b, i, e, m - i, f - i);
    SliceOf(b, i, e, f - i, x - i);
    SliceOf(b, i, e, x - i, e - i);
    assert b[i..e][x - i..] == b[i..e][x - i..e - i];
    assert CutAt(b[i..e], f - i, x - i);
  }

  lemma NumberStarts(s: Text)
    requires IsNumber(s)
    ensures s != "" && (s[0] == '-' || IsDigit(s[0]))
  {
    hide IsFrac, IsExp;
    var f: nat, x: nat :| CutAt(s, f, x);
    var m: nat := if s != "" && s[0] == '-' then 1 else 0;
    assert IsInt(s[m..f]);
    assert s[m..f][0] == s[m];
    ClassesAre(s[m]);
  }

  lemma PlainTo(b: Text, i: nat, e: nat)
    requires IsPlain(b, i, e) && Ends(b, e)
    ensures i < |b| && PlainEnd(b, i) == Some(e) && !IsWs(b[i]) && !Delimiter(b[i]) && b[i] !in {'"', '[', '{'}
  {
    hide NumEnd, IsNumber, Ends;
    assert b[i..e][0] == b[i];
    if b[i..e] !in {"true", "false", "null"} {
      NumberTo(b, i, e);
      NumberStarts(b[i..e]);
    }
  }

  lemma PlainFrom(b: Text, i: nat)
    requires i <= |b| && PlainEnd(b, i).Some?
    ensures IsPlain(b, i, PlainEnd(b, i).value)
  {
    hide NumEnd, IsNumber;
    if !IsAt(b, i, 't') && !IsAt(b, i, 'f') && !IsAt(b, i, 'n') { NumberFrom(b, i); }
  }

  // --- values ---

  lemma StringTo(b: Text, i: nat, e: nat)
    requires i < |b| && b[i] == '"'
    ensures IsString(b, i, e) <==> StrEnd(b, i + 1) == Some(e)
  {
    hide Chars, StrEnd;
    StrIs(b, i + 1, e);
  }

  lemma NameAfter(b: Text, i: nat, j: nat)
    requires i <= |b| && j <= |b| && j == Ws(b, i)
    ensures NameEnd(b, j, '{') == NameEnd(b, i, '{')
  {
    hide StrEnd;
    WsBlank(b, i);
  }

  lemma NoName(b: Text, i: nat)
    requires i <= |b|
    ensures NameEnd(b, i, '[') == Some(i)
  {
  }

  /** Blanks before a member change nothing. */
  lemma MembersAfter(b: Text, i: nat, room: nat, c: char)
    requires i <= |b| && room > 0 && c in {'[', '{'}
    ensures MembersEnd(b, Ws(b, i), room, c) == MembersEnd(b, i, room, c)
  {
    hide ValueEnd, NameEnd, Ws;
    var j := Ws(b, i);
    ValueAfter(b, i, j, room - 1);
    NameAfter(b, i, j);
    NoName(b, i);
    NoName(b, j);
  }

  lemma {:induction false} ValueTo(b: Text, i: nat, e: nat, room: nat)
    requires IsValue(b, i, e, room) && Ends(b, e)
    ensures ValueEnd(b, i, room) == Some(e) && !IsWs(b[i]) && !Delimiter(b[i])
    decreases e - i, 0
  {
    hide Chars, IsMembers, IsPlain, MembersEnd, StrEnd, PlainEnd, IsMember;
    if i < |b| && b[i] == '"' {
      StringTo(b, i, e);
      BlankIs(b, i, i);
      if IsPlain(b, i, e) { PlainTo(b, i, e); }
    } else if IsPlain(b, i, e) {
      PlainTo(b, i, e);
      BlankIs(b, i, i);
    } else {
      assert room > 0 && i + 2 <= e <= |b| && Brackets(b[i], b[e - 1]);
      BlankIs(b, i, i);
      if Blank(b, i + 1, e - 1) {
        BlankIs(b, i + 1, e - 1);
      } else {
        MembersTo(b, i + 1, e - 1, room - 1, b[i]);
        MembersAfter(b, i + 1, room, b[i]);
      }
    }
  }

  lemma ValueAfter(b: Text, v: nat, s: nat, room: nat)
    requires v <= |b| && s <= |b| && Ws(b, v) == s
    ensures ValueEnd(b, v, room) == ValueEnd(b, s, room)
  {
    hide StrEnd, PlainEnd;
    WsBlank(b, v);
  }

  /** A name is read to its colon. */
  lemma NameTo(b: Text, i: nat, v: nat)
    requires v <= |b| && IsName(b, i, v, '{')
    ensures NameEnd(b, i, '{') == Some(v) && i <= |b| && IsAt(b, Ws(b, i), '"')
  {
    hide Chars, StrEnd;
    var s: nat, t: nat :| i <= s < t < v && Blank(b, i, s) && IsString(b, s, t) && Blank(b, t, v - 1)
                          && b[v - 1] == ':';
    StringTo(b, s, t);
    BlankIs(b, i, s);
    BlankIs(b, t, v - 1);
  }

  lemma NameFrom(b: Text, i: nat, c: char)
    requires i <= |b| && c in {'[', '{'} && NameEnd(b, i, c).Some?
    ensures IsName(b, i, NameEnd(b, i, c).value, c)
  {
    hide Chars, StrEnd;
    if c == '{' {
      WsBlank(b, i);
      var s := Ws(b, i);
      var t := StrEnd(b, s + 1).value;
      StringTo(b, s, t);
      WsBlank(b, t);
      var v := NameEnd(b, i, c).value;
      assert i <= s < t < v && Blank(b, i, s) && IsString(b, s, t) && Blank(b, t, v - 1) && b[v - 1] == ':';
    }
  }

  lemma {:induction false} MemberTo(b: Text, i: nat, e: nat, room: nat, c: char) returns (v: nat, t: nat)
    requires e < |b| && c in {'[', '{'} && b[e] in {',', Closer(c)} && IsMember(b, i, e, room, c)
    ensures NameEnd(b, i, c) == Some(v) && v <= |b| && ValueEnd(b, v, room) == Some(t) && t <= |b| && Ws(b, t) == e
    ensures i <= |b| && !IsAt(b, Ws(b, i), Closer(c))
    decreases e - i, 2
  {
    hide IsValue, ValueEnd, IsName, Chars, StrEnd;
    v :| i <= v <= e && IsName(b, i, v, c) && IsPadded(b, v, e, room);
    var s: nat;
    s, t :| v <= s < t <= e && Blank(b, v, s) && IsValue(b, s, t, room) && Blank(b, t, e);
    if t < e { ClassesAre(b[t]); }
    ValueTo(b, s, t, room);
    BlankIs(b, v, s);
    BlankIs(b, t, e);
    ValueAfter(b, v, s, room);
    if c == '{' { NameTo(b, i, v); } else { ArrayName(b, i, v); }
  }

  lemma ArrayName(b: Text, i: nat, v: nat)
    requires v <= |b| && IsName(b, i, v, '[')
    ensures v == i && NameEnd(b, i, '[') == Some(v)
  {
  }

  /** What comes after a member decides. */
  lemma MembersOn(b: Text, i: nat, v: nat, t: nat, e: nat, room: nat, c: char)
    requires i <= |b| && NameEnd(b, i, c) == Some(v) && v <= |b| && ValueEnd(b, v, room) == Some(t) && t <= |b|
    requires Ws(b, t) == e && e < |b| && c in {'[', '{'} && b[e] in {',', Closer(c)}
    ensures MembersEnd(b, i, room + 1, c) == if b[e] == ',' then MembersEnd(b, e + 1, room + 1, c) else Some(e + 1)
  {
    hide NameEnd, ValueEnd, Ws;
  }

  lemma {:induction false} MembersTo(b: Text, i: nat, e: nat, room: nat, c: char)
    requires e < |b| && c in {'[', '{'} && b[e] == Closer(c) && IsMembers(b, i, e, room, c)
    ensures i <= |b| && MembersEnd(b, i, room + 1, c) == Some(e + 1) && !IsAt(b, Ws(b, i), Closer(c))
    decreases e - i, 3
  {
    hide IsMember, NameEnd, ValueEnd, MembersEnd, Ws;
    if IsMember(b, i, e, room, c) {
      var v, t := MemberTo(b, i, e, room, c);
      MembersOn(b, i, v, t, e, room, c);
    } else {
      var m: nat :| i <= m < e && b[m] == ',' && IsMember(b, i, m, room, c) && IsMembers(b, m + 1, e, room, c);
      var v, t := MemberTo(b, i, m, room, c);
      MembersOn(b, i, v, t, m, room, c);
      MembersTo(b, m + 1, e, room, c);
    }
  }

  lemma {:induction false} ValueFrom(b: Text, i: nat, room: nat)
    requires i <= |b| && ValueEnd(b, i, room).Some?
    ensures IsValue(b, Ws(b, i), ValueEnd(b, i, room).value, room)
    decreases |b| - i, 0
  {
    hide Chars, IsMembers, IsPlain, MembersEnd, StrEnd, PlainEnd;
    var s, e := Ws(b, i), ValueEnd(b, i, room).value;
    if IsAt(b, s, '"') {
      StringTo(b, s, e);
    } else if s < |b| && Opener(b[s]) {
      WsBlank(b, s + 1);
      if !IsAt(b, Ws(b, s + 1), Closer(b[s])) {
        MembersAfter(b, s + 1, room, b[s]);
        MembersFrom(b, s + 1, room, b[s]);
      }
    } else {
      PlainFrom(b, s);
    }
  }

  lemma MemberIs(b: Text, i: nat, v: nat, t: nat, room: nat, c: char)
    requires i <= v <= |b| && IsName(b, i, v, c) && Ws(b, v) < t <= |b| && IsValue(b, Ws(b, v), t, room)
    ensures IsMember(b, i, Ws(b, t), room, c)
  {
    hide IsName, IsValue, IsWs, Ws;
    WsBlank(b, v);
    WsBlank(b, t);
    var s, m := Ws(b, v), Ws(b, t);
    assert v <= s < t <= m && Blank(b, v, s) && IsValue(b, s, t, room) && Blank(b, t, m);
    assert IsPadded(b, v, m, room);
  }

  /** A value is some text. */
  lemma ValueLong(b: Text, s: nat, t: nat, room: nat)
    requires IsValue(b, s, t, room)
    ensures s < t <= |b|
  {
    hide Chars, IsMembers;
  }

  lemma {:induction false} MembersFrom(b: Text, i: nat, room: nat, c: char)
    requires i <= |b| && room > 0 && c in {'[', '{'} && MembersEnd(b, i, room, c).Some?
    ensures var e := MembersEnd(b, i, room, c).value;
            i < e <= |b| && b[e - 1] == Closer(c) && IsMembers(b, i, e - 1, room - 1, c)
    decreases |b| - i, 1
  {
    hide IsName, IsValue, ValueEnd, NameEnd, IsWs, Ws, Blank, IsMember, IsPadded;
    NameFrom(b, i, c);
    var v := NameEnd(b, i, c).value;
    ValueFrom(b, v, room - 1);
    var t := ValueEnd(b, v, room - 1).value;
    var m := Ws(b, t);
    ValueLong(b, Ws(b, v), t, room - 1);
    MemberIs(b, i, v, t, room - 1, c);
    if IsAt(b, m, ',') {
      MembersFrom(b, m + 1, room, c);
      var e := MembersEnd(b, i, room, c).value;
      assert i <= m < e - 1 && b[m] == ',' && IsMember(b, i, m, room - 1, c)
             && IsMembers(b, m + 1, e - 1, room - 1, c);
    }
  }

  /** The grammar's end of a value is the one place that makes it one, before a delimiter or the end of the text. */
  lemma ValueIs(b: Text, i: nat, e: nat, room: nat)
    requires i <= |b| && Ends(b, e)
    ensures ValueEnd(b, i, room) == Some(e) <==> IsValue(b, Ws(b, i), e, room)
  {
    hide IsValue, ValueEnd, IsWs;
    ValueAfter(b, i, Ws(b, i), room);
    if ValueEnd(b, i, room) == Some(e) { ValueFrom(b, i, room); }
    if IsValue(b, Ws(b, i), e, room) { ValueTo(b, Ws(b, i), e, room); }
  }

  /** A whole text is read as one value, blanks around it, exactly when the productions make it one. */
  lemma TextIs(b: Text, room: nat)
    ensures (ValueEnd(b, 0, room).Some? && Ws(b, ValueEnd(b, 0, room).value) == |b|) <==> IsPadded(b, 0, |b|, room)
  {
    hide IsValue, ValueEnd, IsWs;
    var s := Ws(b, 0);
    WsBlank(b, 0);
    if ValueEnd(b, 0, room).Some? && Ws(b, ValueEnd(b, 0, room).value) == |b| {
      var t := ValueEnd(b, 0, room).value;
      ValueFrom(b, 0, room);
      ValueLong(b, s, t, room);
      WsBlank(b, t);
      assert 0 <= s < t <= |b| && Blank(b, 0, s) && IsValue(b, s, t, room) && Blank(b, t, |b|);
    }
    if IsPadded(b, 0, |b|, room) {
      var s: nat, t: nat :| 0 <= s < t <= |b| && Blank(b, 0, s) && IsValue(b, s, t, room) && Blank(b, t, |b|);
      if t < |b| { ClassesAre(b[t]); }
      ValueTo(b, s, t, room);
      BlankIs(b, 0, s);
      BlankIs(b, t, |b|);
      ValueAfter(b, 0, s, room);
    }
  }
}
