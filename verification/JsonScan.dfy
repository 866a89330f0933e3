/** The scanner over JSON text that only counts brackets, and that it stops where the grammar says. */
module JsonScan {
  import opened Common
  import opened JsonGrammar

  /** The index after a string whose content goes on at i, for the scanner. */
  function StrStop(b: Text, i: nat): (j: nat)
    ensures j <= |b|
    decreases |b| - i
  {
    if i >= |b| then |b|
    else if b[i] == '\\' then StrStop(b, i + 2)
    else if b[i] == '"' then i + 1
    else StrStop(b, i + 1)
  }

  lemma StrStopMoves(b: Text, i: nat)
    requires i <= |b|
    ensures i <= StrStop(b, i) && (i < |b| ==> i < StrStop(b, i))
    decreases |b| - i
  {
    if i < |b| && b[i] != '"' {
      if b[i] == '\\' {
        if i + 2 <= |b| { StrStopMoves(b, i + 2); }
      } else {
        StrStopMoves(b, i + 1);
      }
    }
  }

  lemma StrStopAgrees(b: Text, i: nat)
    requires StrEnd(b, i).Some?
    ensures StrStop(b, i) == StrEnd(b, i).value
    decreases |b| - i
  {
    if b[i] == '"' {
    } else if b[i] == '\\' {
      if b[i + 1] in "\"\\/bfnrt" {
        StrStopAgrees(b, i + 2);
      } else {
        StrStopAgrees(b, i + 6);
        assert StrStop(b, i + 2) == StrStop(b, i + 3) == StrStop(b, i + 4) == StrStop(b, i + 5) == StrStop(b, i + 6);
      }
    } else {
      StrStopAgrees(b, i + 1);
    }
  }

  /** The index after what is open at depth d, with only quotes and brackets seen. */
  function DepthStop(b: Text, i: nat, d: nat): (j: nat)
    requires d > 0
    ensures j <= |b|
    decreases |b| - i
  {
    if i >= |b| then |b|
    else if b[i] == '"' then
      StrStopMoves(b, i + 1); DepthStop(b, StrStop(b, i + 1), d)
    else if Opener(b[i]) then DepthStop(b, i + 1, d + 1)
    else if b[i] == '}' || b[i] == ']' then if d == 1 then i + 1 else DepthStop(b, i + 1, d - 1)
    else DepthStop(b, i + 1, d)
  }

  /** Where the scanner stops for a value without quotes or brackets. */
  function PlainStop(b: Text, i: nat): (j: nat)
    requires i <= |b|
    ensures i <= j <= |b| && (j < |b| ==> Delimiter(b[j])) && forall k: nat :: i <= k < j ==> !Delimiter(b[k])
    decreases |b| - i
  {
    if i < |b| && !Delimiter(b[i]) then PlainStop(b, i + 1) else i
  }

  /** Where the scanner stops for the value at i. */
  function ValueStop(b: Text, i: nat): nat
    requires i <= |b|
  {
    if i == |b| then i
    else if b[i] == '"' then StrStop(b, i + 1)
    else if Opener(b[i]) then DepthStop(b, i + 1, 1)
    else PlainStop(b, i)
  }

  // --- agreement ---

  /** Characters that are no quotes or brackets are passed over. */
  lemma {:induction false} PassOver(b: Text, i: nat, j: nat, d: nat)
    requires i <= j <= |b| && d > 0 && forall k: nat :: i <= k < j ==>
               PlainChar(b[k]) || IsWs(b[k]) || b[k] == ',' || b[k] == ':'
    ensures DepthStop(b, i, d) == DepthStop(b, j, d)
    decreases j - i
  {
    if i < j {
      PassOver(b, i + 1, j, d);
    }
  }

  /** A value leaves the depth as it is, ... */
  lemma {:induction false} PassValue(b: Text, i: nat, room: nat, d: nat)
    requires i <= |b| && ValueEnd(b, i, room).Some? && d > 0
    ensures DepthStop(b, i, d) == DepthStop(b, ValueEnd(b, i, room).value, d)
    decreases |b| - i, 0
  {
    var s, e := Ws(b, i), ValueEnd(b, i, room).value;
    PassOver(b, i, s, d);
    if b[s] == '"' {
      StrStopAgrees(b, s + 1);
    } else if Opener(b[s]) {
      var j := Ws(b, s + 1);
      PassOver(b, s + 1, j, d + 1);
      if !IsAt(b, j, Closer(b[s])) {
        PassMembers(b, j, room, b[s], d + 1);
      }
    } else {
      PlainIs(b, s);
      PassOver(b, s, e, d);
    }
  }

  /** ... and the rest of an object or array takes it down by one. */
  lemma {:induction false} PassMembers(b: Text, i: nat, room: nat, c: char, d: nat)
    requires i <= |b| && room > 0 && Opener(c) && MembersEnd(b, i, room, c).Some? && d > 0
    ensures DepthStop(b, i, d) == if d == 1 then MembersEnd(b, i, room, c).value
              else DepthStop(b, MembersEnd(b, i, room, c).value, d - 1)
    decreases |b| - i, 1
  {
    hide NameEnd, StrEnd, ValueEnd, PlainEnd, StrStop, DepthStop;
    var v := NameEnd(b, i, c).value;
    PassName(b, i, c, d);
    PassValue(b, v, room - 1, d);
    var e := ValueEnd(b, v, room - 1).value;
    var j := Ws(b, e);
    PassOver(b, e, j, d);
    if b[j] == ',' {
      PassOver(b, j, j + 1, d);
      PassMembers(b, j + 1, room, c, d);
    } else {
      PassCloser(b, j, d);
    }
  }

  lemma PassCloser(b: Text, j: nat, d: nat)
    requires j < |b| && (b[j] == '}' || b[j] == ']') && d > 0
    ensures DepthStop(b, j, d) == if d == 1 then j + 1 else DepthStop(b, j + 1, d - 1)
  {}

  lemma PassName(b: Text, i: nat, c: char, d: nat)
    requires i <= |b| && NameEnd(b, i, c).Some? && d > 0
    ensures DepthStop(b, i, d) == DepthStop(b, NameEnd(b, i, c).value, d)
  {
    if c != '[' {
      var s := Ws(b, i);
      PassOver(b, i, s, d);
      StrStopAgrees(b, s + 1);
      var t := StrEnd(b, s + 1).value;
      var j := Ws(b, t);
      PassOver(b, t, j, d);
    }
  }

  /** On every value the validating lexer accepts that a delimiter or the end of the text follows, both scanners stop
      at the same place. */
  lemma ScannersAgree(b: Text, i: nat, room: nat)
    requires i < |b| && !IsWs(b[i]) && ValueEnd(b, i, room).Some?
    requires var e := ValueEnd(b, i, room).value; e == |b| || Delimiter(b[e])
    ensures ValueStop(b, i) == ValueEnd(b, i, room).value
  {
    assert Ws(b, i) == i;
    var e := ValueEnd(b, i, room).value;
    if b[i] == '"' {
      StrStopAgrees(b, i + 1);
    } else if Opener(b[i]) {
      var j := Ws(b, i + 1);
      PassOver(b, i + 1, j, 1);
      if !IsAt(b, j, Closer(b[i])) {
        PassMembers(b, j, room, b[i], 1);
      }
    } else {
      PlainIs(b, i);
      PlainStops(b, i, e);
    }
  }

  lemma {:induction false} PlainStops(b: Text, i: nat, e: nat)
    requires i <= e <= |b| && (e == |b| || Delimiter(b[e])) && forall k: nat :: i <= k < e ==> !Delimiter(b[k])
    ensures PlainStop(b, i) == e
  {}

  /** Without a delimiter the scanner goes on: "1x" is the value 1 to the lexer and one text to the scanner. */
  lemma NoDelimiter()
    ensures ValueEnd("1x", 0, 1) == Some(1) && ValueStop("1x", 0) == 2
  {
    assert Digits("1x", 0) == Digits("1x", 1) == 1;
    assert PlainStop("1x", 0) == PlainStop("1x", 1) == PlainStop("1x", 2);
  }
}
