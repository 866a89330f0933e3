/** The scanner's loops over text that is valid already: where values end, the elements of an array, a member of an
    object. */
module JsonIter {
  import opened Common
  import opened JsonGrammar
  import opened JsonScan

  method SkipWs(b: Text, i: nat) returns (j: nat)
    requires i <= |b|
    ensures j == Ws(b, i)
  {
    j := i;
    while j < |b| && IsWs(b[j])
      invariant j <= |b| && Ws(b, j) == Ws(b, i)
    {
      j := j + 1;
    }
  }

  /** The index after the string at i. */
  method SkipString(b: Text, i: nat) returns (j: nat)
    requires IsAt(b, i, '"')
    ensures j == StrStop(b, i + 1)
  {
    var k := i + 1;
    while k < |b|
      invariant StrStop(b, k) == StrStop(b, i + 1)
      decreases |b| - k
    {
      if b[k] == '\\' {
        k := k + 1;
      } else if b[k] == '"' {
        return k + 1;
      }
      k := k + 1;
    }
    return |b|;
  }

  /** The index after the value at i. */
  method SkipValue(b: Text, i: nat) returns (j: nat)
    requires i <= |b|
    ensures j == ValueStop(b, i)
  {
    if i >= |b| {
      return i;
    }
    if b[i] == '"' {
      j := SkipString(b, i);
    } else if b[i] == '{' || b[i] == '[' {
      j := SkipDepth(b, i);
    } else {
      j := i;
      while j < |b| && !Delimiter(b[j])
        invariant i <= j <= |b| && PlainStop(b, j) == PlainStop(b, i)
      {
        j := j + 1;
      }
    }
  }

  /** The same for an object or array: it counts brackets outside strings. */
  method SkipDepth(b: Text, i: nat) returns (j: nat)
    requires i < |b| && Opener(b[i])
    ensures j == DepthStop(b, i + 1, 1)
  {
    var k, depth := i + 1, 1;
    while k < |b|
      invariant k <= |b| && depth > 0 && DepthStop(b, k, depth) == DepthStop(b, i + 1, 1)
      decreases |b| - k
    {
      match b[k] {
        case '"' =>
          StrStopMoves(b, k + 1);
          k := SkipString(b, k);
        case '{' | '[' =>
          depth := depth + 1;
          k := k + 1;
        case '}' | ']' =>
          if depth == 1 {
            return k + 1;
          }
          depth := depth - 1;
          k := k + 1;
        case _ =>
          k := k + 1;
      }
    }
    return |b|;
  }

  // --- arrays ---

  datatype Span = Span(start: nat, end: nat)

  /** The elements from i on, of an array that goes on there. */
  ghost function Elems(b: Text, i: nat, room: nat): seq<Span>
    requires i <= |b| && room > 0 && MembersEnd(b, i, room, '[').Some?
    decreases |b| - i
  {
    var e := ValueEnd(b, i, room - 1).value;
    [Span(Ws(b, i), e)] + if IsAt(b, Ws(b, e), ',') then Elems(b, Ws(b, e) + 1, room) else []
  }

  /** A text that starts with an array the lexer accepts. */
  ghost predicate IsArray(b: Text, room: nat) { IsAt(b, 0, '[') && ValueEnd(b, 0, room).Some? }

  ghost function ArrayElems(b: Text, room: nat): seq<Span>
    requires IsArray(b, room)
  {
    assert Ws(b, 0) == 0;
    if IsAt(b, Ws(b, 1), ']') then [] else Elems(b, Ws(b, 1), room)
  }

  /** Where the next element may start. */
  function From(b: Text, i: nat): (j: nat)
    requires i <= |b|
    ensures i <= j <= |b|
  {
    var k := Ws(b, i);
    if IsAt(b, k, ',') then k + 1 else k
  }

  lemma ValueMoves(b: Text, i: nat, room: nat)
    requires i <= |b| && ValueEnd(b, i, room).Some?
    ensures i <= Ws(b, i) < ValueEnd(b, i, room).value <= |b|
  {
    ValueStarts(b, i, room);
  }

  lemma ValueStarts(b: Text, i: nat, room: nat)
    requires i <= |b| && ValueEnd(b, i, room).Some?
    ensures Ws(b, i) < |b| && !Delimiter(b[Ws(b, i)]) && ValueEnd(b, Ws(b, i), room) == ValueEnd(b, i, room)
  {
    var s := Ws(b, i);
    if b[s] != '"' && !Opener(b[s]) {
      PlainIs(b, s);
    }
    assert Ws(b, s) == s;
  }

  /** At an element, the scanner finds its end, and after it the next one or the array's end. */
  lemma ElementEnds(b: Text, i: nat, room: nat)
    requires i <= |b| && room > 0 && MembersEnd(b, i, room, '[').Some?
    ensures var s := Ws(b, i); var e := ValueEnd(b, i, room - 1).value;
            && s < e <= |b| && !Delimiter(b[s]) && ValueStop(b, s) == e && Elems(b, i, room)[0] == Span(s, e)
            && if IsAt(b, Ws(b, e), ',') then MembersEnd(b, Ws(b, e) + 1, room, '[').Some?
                && Elems(b, i, room)[1..] == Elems(b, Ws(b, e) + 1, room)
               else IsAt(b, Ws(b, e), ']') && Elems(b, i, room) == [Span(s, e)]
  {
    hide ValueStop, ValueEnd;
    ValueStarts(b, i, room - 1);
    var s, e := Ws(b, i), ValueEnd(b, i, room - 1).value;
    var j := Ws(b, e);
    assert j == e || IsWs(b[e]);
    ScannersAgree(b, s, room - 1);
  }

  /** The elements left at i. */
  ghost predicate Left(b: Text, i: nat, room: nat, rest: seq<Span>)
    requires i <= |b| && room > 0
  {
    if rest == [] then i == |b| || IsAt(b, Ws(b, i), ']')
    else MembersEnd(b, From(b, i), room, '[').Some? && rest == Elems(b, From(b, i), room)
  }

  /** The next element is where the scanner takes it, and the others are left behind it. */
  lemma LeftStep(b: Text, i: nat, room: nat, rest: seq<Span>)
    requires i <= |b| && room > 0 && Left(b, i, room, rest)
    ensures var k := Ws(b, i); var s := if IsAt(b, k, ',') then Ws(b, k + 1) else k;
            if rest == [] then s == |b| || b[s] == ']'
            else
              && s < |b| && b[s] != ']' && rest[0] == Span(s, ValueStop(b, s)) && s <= ValueStop(b, s) <= |b|
              && Left(b, ValueStop(b, s), room, rest[1..])
    ensures Left(b, |b|, room, [])
  {
    hide ValueEnd, MembersEnd, ValueStop, NameEnd;
    if rest != [] {
      ElementEnds(b, From(b, i), room);
      WsFrom(b, i);
    }
  }

  class ArrayIter {
    const b: Text
    var i: nat

    /** The nesting allowed, and the elements left. */
    ghost const room: nat
    ghost var rest: seq<Span>

    ghost predicate Valid()
      reads this
    {
      i <= |b| && room > 0 && Left(b, i, room, rest)
    }

    constructor (b: Text, ghost room: nat)
      requires IsArray(b, room) && room > 0
      ensures Valid() && rest == ArrayElems(b, room) && this.b == b && this.room == room
    {
      this.b, this.room, i, rest := b, room, 1, ArrayElems(b, room);
      new;
      assert Ws(b, 0) == 0;
      var j := Ws(b, 1);
      assert Ws(b, j) == j;
      if !IsAt(b, j, ']') {
        ElementEnds(b, j, room);
      }
    }

    /** The next element's text. */
    method Next() returns (text: Text, ok: bool)
      requires Valid()
      modifies this
      ensures Valid() && ok == (old(rest) != [])
      ensures ok ==>
              old(rest)[0].start <= old(rest)[0].end <= |b| && text == b[old(rest)[0].start..old(rest)[0].end]
              && rest == old(rest)[1..]
      ensures !ok ==> rest == []
    {
      hide Left, ValueStop;
      LeftStep(b, i, room, rest);
      var k := SkipWs(b, i);
      if k < |b| && b[k] == ',' {
        k := SkipWs(b, k + 1);
      }
      if k >= |b| || b[k] == ']' {
        i := |b|;
        return [], false;
      }
      var j := SkipValue(b, k);
      text, ok := b[k..j], true;
      i := j;
      rest := rest[1..];
    }

    /** Whether no element is left. */
    method Empty() returns (none: bool)
      requires Valid()
      ensures none == (rest == [])
    {
      hide Left, ValueStop;
      LeftStep(b, i, room, rest);
      var k := SkipWs(b, i);
      if k < |b| && b[k] == ',' {
        k := SkipWs(b, k + 1);
      }
      none := k >= |b| || b[k] == ']';
    }
  }

  lemma WsFrom(b: Text, i: nat)
    requires i <= |b|
    ensures Ws(b, From(b, i)) == if IsAt(b, Ws(b, i), ',') then Ws(b, Ws(b, i) + 1) else Ws(b, i)
  {}

  /** The number of elements, no further than one past the limit. */
  method CountArray(arr: Text, limit: nat, ghost room: nat) returns (n: nat)
    requires IsArray(arr, room) && room > 0
    ensures n == Min(|ArrayElems(arr, room)|, limit + 1)
  {
    var it := new ArrayIter(arr, room);
    n := 0;
    while n <= limit
      invariant it.Valid() && it.b == arr && it.room == room && n <= limit + 1
                && n + |it.rest| == |ArrayElems(arr, room)|
    {
      var text, ok := it.Next();
      if !ok {
        break;
      }
      n := n + 1;
    }
  }

  // --- objects ---

  /** A member: its name with the quotes, and its value. */
  datatype Member = Member(name: Span, value: Span)

  /** The member at i. */
  ghost function MemberAt(b: Text, i: nat, room: nat): Member
    requires i <= |b| && room > 0 && MembersEnd(b, i, room, '{').Some?
  {
    var n := Ws(b, i);
    var v := NameEnd(b, i, '{').value;
    Member(Span(n, StrEnd(b, n + 1).value), Span(Ws(b, v), ValueEnd(b, v, room - 1).value))
  }

  ghost function Members(b: Text, i: nat, room: nat): seq<Member>
    requires i <= |b| && room > 0 && MembersEnd(b, i, room, '{').Some?
    decreases |b| - i
  {
    var j := Ws(b, ValueEnd(b, NameEnd(b, i, '{').value, room - 1).value);
    [MemberAt(b, i, room)] + if IsAt(b, j, ',') then Members(b, j + 1, room) else []
  }

  /** The members of a text that is a value the lexer accepts; none unless it is an object. */
  ghost function ObjectMembers(b: Text, room: nat): seq<Member>
    requires ValueEnd(b, 0, room).Some?
  {
    var i := Ws(b, 0);
    if !IsAt(b, i, '{') || IsAt(b, Ws(b, i + 1), '}') then [] else Members(b, Ws(b, i + 1), room)
  }

  predicate SpanOk(b: Text, s: Span) { s.start <= s.end <= |b| }

  function TextOf(b: Text, s: Span): Text { if SpanOk(b, s) then b[s.start..s.end] else [] }

  /** The value of the last member with a matching name. */
  function LastMatch(b: Text, ms: seq<Member>, matches: Text -> bool): Option<Text> {
    if ms == [] then None else
      var m := ms[|ms| - 1];
      if matches(TextOf(b, m.name)) then Some(TextOf(b, m.value)) else LastMatch(b, ms[..|ms| - 1], matches)
  }

  /** It is the value of a member with a matching name that no other one follows, and none when there is none. */
  ghost predicate IsLastMatch(b: Text, ms: seq<Member>, matches: Text -> bool, found: Option<Text>) {
    if found.None? then forall m <- ms :: !matches(TextOf(b, m.name))
    else exists k: nat :: k < |ms| && matches(TextOf(b, ms[k].name)) && found.value == TextOf(b, ms[k].value)
                          && forall j: nat :: k < j < |ms| ==> !matches(TextOf(b, ms[j].name))
  }

  lemma {:induction false} LastIs(b: Text, ms: seq<Member>, matches: Text -> bool)
    ensures IsLastMatch(b, ms, matches, LastMatch(b, ms, matches))
    decreases ms
  {
    if ms != [] {
      var n := |ms| - 1;
      LastIs(b, ms[..n], matches);
      if !matches(TextOf(b, ms[n].name)) && LastMatch(b, ms, matches).Some? {
        var k: nat :| k < n && matches(TextOf(b, ms[..n][k].name))
                      && LastMatch(b, ms, matches).value == TextOf(b, ms[..n][k].value)
                      && forall j: nat :: k < j < n ==> !matches(TextOf(b, ms[..n][j].name));
        assert ms[..n][k] == ms[k];
        forall j: nat | k < j < |ms| ensures !matches(TextOf(b, ms[j].name)) {
          if j < n { assert ms[..n][j] == ms[j]; }
        }
      }
    }
  }

  /** The members left at i. */
  ghost predicate Unread(b: Text, i: nat, room: nat, rest: seq<Member>)
    requires i <= |b| && room > 0
  {
    if rest == [] then IsAt(b, Ws(b, i), '}') else MembersEnd(b, i, room, '{').Some? && rest == Members(b, i, room)
  }

  /** A member as the scanner reads it, and where the next one may start. */
  datatype Scanned = Scanned(member: Member, next: nat)

  function ScanMember(b: Text, i: nat): (r: Option<Scanned>)
    requires i <= |b|
  {
    var n := Ws(b, i);
    if !IsAt(b, n, '"') then None else
      var s := StrStop(b, n + 1);
      var c := Ws(b, s);
      if !IsAt(b, c, ':') then None else
        var v := Ws(b, c + 1);
        var e := ValueStop(b, v);
        if e > |b| then None else
          var j := Ws(b, e);
          Some(Scanned(Member(Span(n, s), Span(v, e)), if IsAt(b, j, ',') then j + 1 else j))
  }

  /** At a member the scanner finds its name and value, and behind a comma or the end the others. */
  lemma MemberEnds(b: Text, i: nat, room: nat, rest: seq<Member>)
    requires i <= |b| && room > 0 && Unread(b, i, room, rest) && rest != []
    ensures var m := ScanMember(b, i);
            m.Some? && m.value.member == rest[0] && i < m.value.next <= |b| && Unread(b, m.value.next, room, rest[1..])
            && rest[0].name.start <= rest[0].name.end <= |b| && rest[0].value.start <= rest[0].value.end <= |b|
  {
    hide StrStop, StrEnd, ValueStop, ValueEnd, Unread;
    MemberParts(b, i, room, rest);
    MemberNext(b, i, room, rest);
    var n := Ws(b, i);
    StrStopAgrees(b, n + 1);
    var v := NameEnd(b, i, '{').value;
    ValueStarts(b, v, room - 1);
    ScannersAgree(b, Ws(b, v), room - 1);
  }

  /** The grammar's side of it. */
  lemma MemberParts(b: Text, i: nat, room: nat, rest: seq<Member>)
    requires i <= |b| && room > 0 && Unread(b, i, room, rest) && rest != []
    ensures NameEnd(b, i, '{').Some?
    ensures var n := Ws(b, i);
              IsAt(b, n,
              '"') && StrEnd(b, n + 1).Some? && rest[0].name == Span(n, StrEnd(b, n + 1).value)
    ensures var v := NameEnd(b, i, '{').value;
            ValueEnd(b, v, room - 1).Some?
            && Ws(b, v) <= ValueEnd(b, v, room - 1).value
            && rest[0].value == Span(Ws(b, v), ValueEnd(b, v, room - 1).value)
  {
    hide StrEnd, ValueEnd;
    ValueMoves(b, NameEnd(b, i, '{').value, room - 1);
  }

  lemma MemberNext(b: Text, i: nat, room: nat, rest: seq<Member>)
    requires i <= |b| && room > 0 && Unread(b, i, room, rest) && rest != []
    requires NameEnd(b, i, '{').Some? && ValueEnd(b, NameEnd(b, i, '{').value, room - 1).Some?
    ensures var e := ValueEnd(b, NameEnd(b, i, '{').value, room - 1).value; var j := Ws(b, e);
            (e == |b| || Delimiter(b[e])) && j < |b| && Unread(b, if b[j] == ',' then j + 1 else j, room, rest[1..])
  {
    hide StrEnd, ValueEnd, NameEnd;
    var e := ValueEnd(b, NameEnd(b, i, '{').value, room - 1).value;
    var j := Ws(b, e);
    assert j == e || IsWs(b[e]);
    assert Ws(b, j) == j;
    if IsAt(b, j, ',') {
      assert rest[1..] == Members(b, j + 1, room);
    } else {
      assert rest[1..] == [];
    }
  }

  lemma NoMember(b: Text, i: nat, room: nat)
    requires i <= |b| && room > 0 && Unread(b, i, room, [])
    ensures ScanMember(b, i) == None
  {}

  /** Reads one member. */
  method ReadMember(obj: Text, i0: nat) returns (m: Option<Scanned>)
    requires i0 <= |obj|
    ensures m == ScanMember(obj, i0)
  {
    hide ValueStop, StrStop;
    var i := SkipWs(obj, i0);
    if i >= |obj| || obj[i] != '"' {
      return None;
    }
    var k0 := i;
    i := SkipString(obj, i);
    var k1 := i;
    i := SkipWs(obj, i);
    if i >= |obj| || obj[i] != ':' {
      return None;
    }
    i := SkipWs(obj, i + 1);
    var v0 := i;
    i := SkipValue(obj, i);
    var v1 := i;
    if v1 > |obj| {
      return None;
    }
    i := SkipWs(obj, i);
    if i < |obj| && obj[i] == ',' {
      i := i + 1;
    }
    return Some(Scanned(Member(Span(k0, k1), Span(v0, v1)), i));
  }

  /** The value of the member with a matching name, the last one when there are several. */
  method FindMember(obj: Text, matches: Text -> bool, ghost room: nat) returns (found: Option<Text>)
    requires ValueEnd(obj, 0, room).Some?
    ensures found == LastMatch(obj, ObjectMembers(obj, room), matches)
    ensures IsLastMatch(obj, ObjectMembers(obj, room), matches, found)
  {
    hide Unread, ScanMember, ValueEnd, Members, IsLastMatch, LastMatch;
    LastIs(obj, ObjectMembers(obj, room), matches);
    NoMatch(obj, matches);
    found := None;
    var i := SkipWs(obj, 0);
    if i >= |obj| || obj[i] != '{' {
      return;
    }
    FirstMember(obj, room);
    i := SkipWs(obj, i + 1);
    found := FindFrom(obj, i, matches, room, ObjectMembers(obj, room));
  }

  method FindFrom(obj: Text, start: nat, matches: Text -> bool, ghost room: nat,
                  ghost all: seq<Member>) returns (found: Option<Text>)
    requires start <= |obj| && room > 0 && Unread(obj, start, room, all)
    ensures found == LastMatch(obj, all, matches)
  {
    hide Unread, ScanMember, LastMatch;
    ghost var n := 0;
    NoMatch(obj, matches);
    assert all[..0] == [] && all[0..] == all;
    found := None;
    var i: nat := start;
    var more := true;
    while more
      invariant i <= |obj| && n <= |all| && found == LastMatch(obj, all[..n], matches)
      invariant if more then Unread(obj, i, room, all[n..]) else n == |all|
      decreases |all| - n, more
    {
      if n < |all| {
        MemberEnds(obj, i, room, all[n..]);
        MoreMatch(obj, all, n, matches);
        assert all[n..][1..] == all[n + 1..];
      } else {
        assert all[n..] == [];
        NoMember(obj, i, room);
      }
      var m := ReadMember(obj, i);
      more := m.Some?;
      if more {
        if matches(TextOf(obj, m.value.member.name)) {
          found := Some(TextOf(obj, m.value.member.value));
        }
        i := m.value.next;
        n := n + 1;
      }
    }
    assert all[..n] == all;
  }

  lemma FirstMember(b: Text, room: nat)
    requires ValueEnd(b, 0, room).Some? && IsAt(b, Ws(b, 0), '{')
    ensures room > 0 && Unread(b, Ws(b, Ws(b, 0) + 1), room, ObjectMembers(b, room))
  {
    var i := Ws(b, Ws(b, 0) + 1);
    assert Ws(b, i) == i;
  }

  lemma NoMatch(b: Text, matches: Text -> bool)
    ensures LastMatch(b, [], matches) == None
  {}

  lemma MoreMatch(b: Text, ms: seq<Member>, n: nat, matches: Text -> bool)
    requires n < |ms|
    ensures LastMatch(b, ms[..n + 1], matches) == if matches(TextOf(b, ms[n].name)) then Some(TextOf(b, ms[n].value))
              else LastMatch(b, ms[..n], matches)
  {
    assert ms[..n + 1][..n] == ms[..n];
  }
}
