/** The elements of an array and the members of an object by the productions of sections 4 and 5 of RFC 8259: they cut
    the text between the brackets, and nothing of it but blanks, commas and colons is in none of them. */
module JsonParts {
  import opened Common
  import opened JsonGrammar
  import opened JsonProductions
  import opened JsonValues
  import opened JsonIter
  import JsonScan

  /** The text from i to e is these values with blanks around them, separated by commas. */
  ghost predicate IsList(b: Text, i: nat, es: seq<Span>, e: nat, room: nat)
    decreases |es|
  {
    && es != [] && Blank(b, i, es[0].start) && IsValue(b, es[0].start, es[0].end, room)
    && if |es| == 1 then Blank(b, es[0].end, e)
       else exists m: nat :: Blank(b, es[0].end, m) && IsAt(b, m, ',') && IsList(b, m + 1, es[1..], e, room)
  }

  lemma ListCons(b: Text, i: nat, x: Span, m: nat, rest: seq<Span>, e: nat, room: nat)
    requires Blank(b, i, x.start) && IsValue(b, x.start, x.end, room) && Blank(b, x.end, m)
    requires if rest == [] then m == e else IsAt(b, m, ',') && IsList(b, m + 1, rest, e, room)
    ensures IsList(b, i, [x] + rest, e, room)
  {
    hide IsValue;
    assert ([x] + rest)[1..] == rest;
  }

  /** A member ends in a comma, and others follow, or in the bracket. */
  lemma EndIs(b: Text, i: nat, room: nat, c: char) returns (v: nat, t: nat, m: nat)
    requires i <= |b| && room > 0 && MembersEnd(b, i, room, c).Some?
    ensures NameEnd(b, i, c) == Some(v) && i <= v <= |b| && ValueEnd(b, v, room - 1) == Some(t) && v < t <= |b|
    ensures m == Ws(b, t) && t <= m < |b|
    ensures if b[m] == ',' then MembersEnd(b, m + 1, room, c) == MembersEnd(b, i, room, c)
            else MembersEnd(b, i, room, c) == Some(m + 1) && b[m] == Closer(c)
  {
    hide ValueEnd, NameEnd, Ws;
    v := NameEnd(b, i, c).value;
    t := ValueEnd(b, v, room - 1).value;
    m := Ws(b, t);
  }

  lemma SomeElems(b: Text, i: nat, room: nat)
    requires i <= |b| && room > 0 && MembersEnd(b, i, room, '[').Some?
    ensures Elems(b, i, room) != []
  {
  }

  lemma {:induction false} ElemsAre(b: Text, i: nat, room: nat)
    requires i <= |b| && room > 0 && MembersEnd(b, i, room, '[').Some?
    ensures var e := MembersEnd(b, i, room, '[').value - 1;
            IsAt(b, e, ']') && IsList(b, i, Elems(b, i, room), e, room - 1)
    decreases |b| - i
  {
    hide ValueEnd, IsValue, Ws, Blank, MembersEnd, Elems, IsList, NameEnd, JsonScan.ValueStop;
    var v, t, m := EndIs(b, i, room, '[');
    NoName(b, i);
    ElementEnds(b, i, room);
    ValueFrom(b, i, room - 1);
    WsBlank(b, i);
    WsBlank(b, t);
    var es := Elems(b, i, room);
    SomeElems(b, i, room);
    assert es == [es[0]] + es[1..];
    if b[m] == ',' {
      ElemsAre(b, m + 1, room);
      SomeElems(b, m + 1, room);
    }
    ListCons(b, i, es[0], m, es[1..], MembersEnd(b, i, room, '[').value - 1, room - 1);
  }

  /** An array is its elements between brackets. */
  lemma ArrayIs(b: Text, room: nat)
    requires IsArray(b, room)
    ensures var e := ValueEnd(b, 0, room).value;
            var es := ArrayElems(b, room);
            IsAt(b, e - 1, ']') && if es == [] then Blank(b, 1, e - 1) else IsList(b, 1, es, e - 1, room - 1)
  {
    hide MembersEnd, Blank, IsValue;
    BlankStart(b);
    var j := Ws(b, 1);
    WsBlank(b, 1);
    if !IsAt(b, j, ']') {
      ElemsAre(b, j, room);
      ListAfter(b, 1, j, ArrayElems(b, room), ValueEnd(b, 0, room).value - 1, room - 1);
    }
  }

  lemma BlankStart(b: Text)
    requires b != "" && Opener(b[0])
    ensures Ws(b, 0) == 0
  {
  }

  lemma ListAfter(b: Text, i: nat, j: nat, es: seq<Span>, e: nat, room: nat)
    requires Blank(b, i, j) && IsList(b, j, es, e, room)
    ensures IsList(b, i, es, e, room)
  {
    hide IsValue;
  }

  /** The text from i to e is these members, names and values, with blanks around them, separated by commas. */
  ghost predicate IsRecord(b: Text, i: nat, ms: seq<Member>, e: nat, room: nat)
    decreases |ms|
  {
    && ms != [] && Blank(b, i, ms[0].name.start) && IsPair(b, ms[0], room)
    && if |ms| == 1 then Blank(b, ms[0].value.end, e)
       else exists m: nat :: Blank(b, ms[0].value.end, m) && IsAt(b, m, ',') && IsRecord(b, m + 1, ms[1..], e, room)
  }

  ghost predicate IsPair(b: Text, m: Member, room: nat) {
    && IsString(b, m.name.start, m.name.end) && IsValue(b, m.value.start, m.value.end, room)
    && exists c: nat :: Blank(b, m.name.end, c) && IsAt(b, c, ':') && Blank(b, c + 1, m.value.start)
  }

  lemma PairIs(b: Text, i: nat, room: nat)
    requires i <= |b| && room > 0 && MembersEnd(b, i, room, '{').Some?
    ensures var m := Members(b, i, room)[0];
            Blank(b, i, m.name.start) && IsPair(b, m, room - 1) && m.value.end <= |b|
            && NameEnd(b, i, '{').Some? && NameEnd(b, i, '{').value <= |b|
            && ValueEnd(b, NameEnd(b, i, '{').value, room - 1) == Some(m.value.end)
  {
    hide ValueEnd, IsValue, IsWs, StrEnd, Chars, Blank;
    var n := Ws(b, i);
    var v := NameEnd(b, i, '{').value;
    var s := StrEnd(b, n + 1).value;
    StringTo(b, n, s);
    ValueFrom(b, v, room - 1);
    WsBlank(b, i);
    WsBlank(b, s);
    WsBlank(b, v);
    assert IsAt(b, Ws(b, s), ':') && v == Ws(b, s) + 1;
  }

  lemma RecordCons(b: Text, i: nat, x: Member, m: nat, rest: seq<Member>, e: nat, room: nat)
    requires Blank(b, i, x.name.start) && IsPair(b, x, room) && Blank(b, x.value.end, m)
    requires if rest == [] then m == e else IsAt(b, m, ',') && IsRecord(b, m + 1, rest, e, room)
    ensures IsRecord(b, i, [x] + rest, e, room)
  {
    hide IsPair;
    assert ([x] + rest)[1..] == rest;
  }

  /** A member goes on with the others behind a comma; the last one does not. */
  lemma MembersStep(b: Text, i: nat, v: nat, m: nat, room: nat)
    requires i <= |b| && room > 0 && MembersEnd(b, i, room, '{').Some? && NameEnd(b, i, '{') == Some(v) && v <= |b|
    requires ValueEnd(b, v, room - 1).Some?
    requires m == Ws(b, ValueEnd(b, v, room - 1).value) && (IsAt(b, m, ',') ==> MembersEnd(b, m + 1, room, '{').Some?)
    ensures var ms := Members(b, i, room);
            ms != [] && ms[1..] == if IsAt(b, m, ',') then Members(b, m + 1, room) else []
  {
    hide ValueEnd, NameEnd, Ws, StrEnd, MembersEnd, IsAt, MemberAt;
    var rest := if IsAt(b, m, ',') then Members(b, m + 1, room) else [];
    assert Members(b, i, room) == [MemberAt(b, i, room)] + rest;
  }

  lemma SomeMembers(b: Text, i: nat, room: nat)
    requires i <= |b| && room > 0 && MembersEnd(b, i, room, '{').Some?
    ensures Members(b, i, room) != []
  {
  }

  lemma {:induction false} MembersAre(b: Text, i: nat, room: nat)
    requires i <= |b| && room > 0 && MembersEnd(b, i, room, '{').Some?
    ensures var e := MembersEnd(b, i, room, '{').value - 1;
            IsAt(b, e, '}') && IsRecord(b, i, Members(b, i, room), e, room - 1)
    decreases |b| - i
  {
    hide ValueEnd, IsPair, Ws, Blank, MembersEnd, Members, IsRecord, NameEnd;
    var v, t, m := EndIs(b, i, room, '{');
    MembersStep(b, i, v, m, room);
    PairIs(b, i, room);
    var ms := Members(b, i, room);
    assert ms == [ms[0]] + ms[1..];
    WsBlank(b, t);
    if b[m] == ',' {
      MembersAre(b, m + 1, room);
      SomeMembers(b, m + 1, room);
    }
    RecordCons(b, i, ms[0], m, ms[1..], MembersEnd(b, i, room, '{').value - 1, room - 1);
  }

  /** An object is its members between braces. */
  lemma ObjectIs(b: Text, room: nat)
    requires ValueEnd(b, 0, room).Some? && IsAt(b, Ws(b, 0), '{')
    ensures var i := Ws(b, 0);
            var e := ValueEnd(b, 0, room).value;
            var ms := ObjectMembers(b, room);
            IsAt(b, e - 1, '}') && if ms == [] then Blank(b, i + 1, e - 1) else IsRecord(b, i + 1, ms, e - 1, room - 1)
  {
    hide MembersEnd, Blank, IsPair, Members;
    var i := Ws(b, 0);
    var j := Ws(b, i + 1);
    WsBlank(b, i + 1);
    ObjectEnd(b, room);
    if !IsAt(b, j, '}') {
      MembersAre(b, j, room);
      RecordAfter(b, i + 1, j, ObjectMembers(b, room), ValueEnd(b, 0, room).value - 1, room - 1);
      SomeMembers(b, j, room);
    }
  }

  lemma ObjectEnd(b: Text, room: nat)
    requires ValueEnd(b, 0, room).Some? && IsAt(b, Ws(b, 0), '{')
    ensures var j := Ws(b, Ws(b, 0) + 1);
            room > 0 && if IsAt(b, j, '}') then ValueEnd(b, 0, room) == Some(j + 1)
                        else ValueEnd(b, 0, room) == MembersEnd(b, j, room, '{')
  {
    hide MembersEnd;
  }

  lemma RecordAfter(b: Text, i: nat, j: nat, ms: seq<Member>, e: nat, room: nat)
    requires Blank(b, i, j) && IsRecord(b, j, ms, e, room)
    ensures IsRecord(b, i, ms, e, room)
  {
    hide IsPair;
  }
}
