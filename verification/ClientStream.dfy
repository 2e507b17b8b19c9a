/**
 The client's receive loop: it cuts a stream of JSON objects at the brace that
 findJsonEnd finds, keeping an unfinished object for the next read.
 */
module ClientStream {
  import opened Wrappers
  import opened Bytes
  import opened Splitting

  // ----- the scanner -----

  datatype Scan = Scan(depth: int, inStr: bool, esc: bool)

  function Outside(depth: int): Scan { Scan(depth, false, false) }
  function Inside(depth: int): Scan { Scan(depth, true, false) }

  function Next(s: Scan, c: char): Scan {
    if s.esc then s.(esc := false)
    else if s.inStr then
      if c == '\\' then s.(esc := true) else if c == '"' then s.(inStr := false) else s
    else if c == '"' then s.(inStr := true)
    else if c == '{' then s.(depth := s.depth + 1)
    else if c == '}' then s.(depth := s.depth - 1)
    else s
  }

  predicate Closes(s: Scan, c: char) {
    !s.esc && !s.inStr && c == '}' && s.depth == 1
  }

  // Characters up to and including the brace that brings the depth to zero.
  function ScanEnd(s: Scan, text: string): (r: Option<nat>)
    ensures r.Some? ==> 0 < r.value <= |text|
    decreases |text|
  {
    if text == [] then None
    else if Closes(s, text[0]) then Some(1)
    else match ScanEnd(Next(s, text[0]), text[1..])
      case None => None
      case Some(n) => Some(n + 1)
  }

  function FindEnd(text: string): (r: Option<nat>)
    ensures r.Some? ==> 0 < r.value <= |text|
  {
    ScanEnd(Outside(0), text)
  }

  method FindJsonEnd(buf: string, start: nat) returns (r: Option<nat>)
    requires start <= |buf|
    ensures FindEnd(buf[start..]) == (if r.Some? then Some(r.value - start) else None)
  {
    var depth, inStr, esc := 0, false, false;
    var i := start;
    while i < |buf|
      invariant start <= i <= |buf|
      invariant var rest := ScanEnd(Scan(depth, inStr, esc), buf[i..]);
                FindEnd(buf[start..]) == if rest.Some? then Some(i - start + rest.value) else None
    {
      var c := buf[i];
      assert buf[i..][0] == c && buf[i..][1..] == buf[i + 1..];
      i := i + 1;
      if esc {
        esc := false;
        continue;
      }
      if inStr {
        if c == '\\' {
          esc := true;
        } else if c == '"' {
          inStr := false;
        }
        continue;
      }
      if c == '"' {
        inStr := true;
        continue;
      }
      if c == '{' {
        depth := depth + 1;
      } else if c == '}' {
        depth := depth - 1;
        if depth == 0 {
          return Some(i);
        }
      }
    }
    r := None;
  }

  // The state after text, unless the outermost object ended within it.
  function Run(s: Scan, text: string): Option<Scan>
    decreases |text|
  {
    if text == [] then Some(s)
    else if Closes(s, text[0]) then None
    else Run(Next(s, text[0]), text[1..])
  }

  lemma {:induction false} RunAppend(s: Scan, a: string, b: string)
    requires Run(s, a).Some?
    ensures Run(s, a + b) == Run(Run(s, a).value, b)
    ensures ScanEnd(s, a + b) == match ScanEnd(Run(s, a).value, b)
                                 case None => None
                                 case Some(n) => Some(|a| + n)
    decreases |a|
  {
    if a == [] {
      assert a + b == b;
    } else {
      assert (a + b)[1..] == a[1..] + b;
      RunAppend(Next(s, a[0]), a[1..], b);
    }
  }

  // ----- compact JSON text, sections 4 to 7 of RFC 8259 -----

  // A character of a string, or a backslash and the character after it.
  datatype Unit = Plain(c: char) | Escaped(c: char)

  datatype Value =
    | Scalar(lexeme: string) // a number, true, false or null
    | Text(units: seq<Unit>)
    | Array(elems: seq<Value>)
    | Object(members: seq<Member>)

  datatype Member = Member(key: seq<Unit>, value: Value)

  predicate ValidUnits(us: seq<Unit>) {
    forall u :: u in us && u.Plain? ==> u.c != '"' && u.c != '\\'
  }

  predicate Valid(v: Value) {
    match v
    case Scalar(lexeme) => forall c :: c in lexeme ==> c !in "\"{}"
    case Text(units) => ValidUnits(units)
    case Array(elems) => forall e :: e in elems ==> Valid(e)
    case Object(members) => forall m :: m in members ==> ValidUnits(m.key) && Valid(m.value)
  }

  function PrintUnits(us: seq<Unit>): string {
    if us == [] then ""
    else (if us[0].Plain? then [us[0].c] else ['\\', us[0].c]) + PrintUnits(us[1..])
  }

  function PrintText(us: seq<Unit>): string {
    "\"" + PrintUnits(us) + "\""
  }

  function Print(v: Value): string
    decreases v
  {
    match v
    case Scalar(lexeme) => lexeme
    case Text(units) => PrintText(units)
    case Array(elems) => "[" + PrintElems(elems) + "]"
    case Object(members) => "{" + PrintMembers(members) + "}"
  }

  function PrintElems(es: seq<Value>): string
    decreases es
  {
    if es == [] then ""
    else Print(es[0]) + (if |es| > 1 then "," else "") + PrintElems(es[1..])
  }

  function PrintMembers(ms: seq<Member>): string
    decreases ms
  {
    if ms == [] then ""
    else PrintText(ms[0].key) + ":" + Print(ms[0].value) + (if |ms| > 1 then "," else "") + PrintMembers(ms[1..])
  }

  // ----- scanning a printed value leaves the depth as it was -----

  lemma {:induction false} RunUnits(d: int, us: seq<Unit>)
    requires ValidUnits(us)
    ensures Run(Inside(d), PrintUnits(us)) == Some(Inside(d))
  {
    if us != [] {
      var first, rest := if us[0].Plain? then [us[0].c] else ['\\', us[0].c], PrintUnits(us[1..]);
      assert first[1..] == if us[0].Plain? then [] else [us[0].c];
      if us[0].Escaped? {
        assert first[1..][1..] == [];
        assert Run(Scan(d, true, true), first[1..]) == Some(Inside(d));
      }
      RunUnits(d, us[1..]);
      RunAppend(Inside(d), first, rest);
    }
  }

  lemma {:induction false} RunText(d: int, us: seq<Unit>)
    requires ValidUnits(us)
    ensures Run(Outside(d), PrintText(us)) == Some(Outside(d))
  {
    RunOne(Outside(d), '"');
    RunOne(Inside(d), '"');
    RunUnits(d, us);
    RunAppend(Outside(d), "\"", PrintUnits(us));
    RunAppend(Outside(d), "\"" + PrintUnits(us), "\"");
  }

  lemma RunOne(s: Scan, c: char)
    requires !Closes(s, c)
    ensures Run(s, [c]) == Some(Next(s, c))
  {
  }

  lemma {:induction false} RunPlain(d: int, text: string)
    requires forall c :: c in text ==> c !in "\"{}"
    ensures Run(Outside(d), text) == Some(Outside(d))
  {
    if text != [] {
      assert text[0] in text;
      RunPlain(d, text[1..]);
    }
  }

  lemma {:induction false} RunValue(d: int, v: Value)
    requires d >= 1 && Valid(v)
    ensures Run(Outside(d), Print(v)) == Some(Outside(d))
    decreases v, 1
  {
    match v {
      case Scalar(lexeme) => RunPlain(d, lexeme);
      case Text(units) => RunText(d, units);
      case Array(elems) =>
        RunOne(Outside(d), '[');
        RunOne(Outside(d), ']');
        RunElems(d, elems);
        RunAppend(Outside(d), "[", PrintElems(elems));
        RunAppend(Outside(d), "[" + PrintElems(elems), "]");
      case Object(members) =>
        RunOpen(d, members);
        RunOne(Outside(d + 1), '}');
        RunAppend(Outside(d), "{" + PrintMembers(members), "}");
    }
  }

  lemma {:induction false} RunOpen(d: int, members: seq<Member>)
    requires d >= 0 && forall m :: m in members ==> ValidUnits(m.key) && Valid(m.value)
    ensures Run(Outside(d), "{" + PrintMembers(members)) == Some(Outside(d + 1))
    decreases members, 1
  {
    RunOne(Outside(d), '{');
    RunMembers(d + 1, members);
    RunAppend(Outside(d), "{", PrintMembers(members));
  }

  lemma {:induction false} RunElems(d: int, es: seq<Value>)
    requires d >= 1 && forall e :: e in es ==> Valid(e)
    ensures Run(Outside(d), PrintElems(es)) == Some(Outside(d))
    decreases es, 0
  {
    if es != [] {
      var first, comma := Print(es[0]), if |es| > 1 then "," else "";
      RunValue(d, es[0]);
      RunPlain(d, comma);
      RunElems(d, es[1..]);
      RunAppend(Outside(d), first, comma);
      RunAppend(Outside(d), first + comma, PrintElems(es[1..]));
    }
  }

  lemma {:induction false} RunMembers(d: int, ms: seq<Member>)
    requires d >= 1 && forall m :: m in ms ==> ValidUnits(m.key) && Valid(m.value)
    ensures Run(Outside(d), PrintMembers(ms)) == Some(Outside(d))
    decreases ms, 0
  {
    if ms != [] {
      var m, comma := ms[0], if |ms| > 1 then "," else "";
      assert m in ms;
      RunText(d, m.key);
      RunPlain(d, ":");
      RunValue(d, m.value);
      RunPlain(d, comma);
      RunMembers(d, ms[1..]);
      var s1 := PrintText(m.key);
      var s2 := s1 + ":";
      var s3 := s2 + Print(m.value);
      var s4 := s3 + comma;
      RunAppend(Outside(d), s1, ":");
      RunAppend(Outside(d), s2, Print(m.value));
      RunAppend(Outside(d), s3, comma);
      RunAppend(Outside(d), s4, PrintMembers(ms[1..]));
    }
  }

  // The end found is the end of the object, whatever follows it.
  lemma {:induction false} FindsTrueEnd(o: Value, after: string)
    requires o.Object? && Valid(o)
    ensures FindEnd(Print(o) + after) == Some(|Print(o)|)
  {
    var open := "{" + PrintMembers(o.members);
    RunOpen(0, o.members);
    assert Print(o) + after == open + ("}" + after);
    RunAppend(Outside(0), open, "}" + after);
  }

  // A closing brace too many is not forgotten: the object behind it has no end, or ends
  // at an inner brace.
  lemma StrayBrace()
    ensures FindEnd("}{}") == None && FindEnd("}{{}}") == Some(4)
  {
    var s1 := Scan(-1, false, false);
    assert ScanEnd(Outside(0), "}{}") == None by {
      assert "}{}"[1..] == "{}" && "{}"[1..] == "}" && "}"[1..] == "";
      assert ScanEnd(Outside(0), "}") == None;
      assert ScanEnd(s1, "{}") == None;
    }
    assert ScanEnd(Outside(0), "}{{}}") == Some(4) by {
      assert "}{{}}"[1..] == "{{}}" && "{{}}"[1..] == "{}}" && "{}}"[1..] == "}}";
      assert ScanEnd(Outside(1), "}}") == Some(1);
      assert ScanEnd(Outside(0), "{}}") == Some(2);
      assert ScanEnd(s1, "{{}}") == Some(3);
    }
  }

  // ----- the receive loop -----

  predicate Blank(c: char) {
    c == '\0' || c == ' ' || c == '\n' || c == '\r' || c == '\t'
  }

  function SkipBlanks(s: string): (r: string)
    ensures |r| <= |s|
    ensures r != [] ==> !Blank(r[0])
  {
    if s != [] && Blank(s[0]) then SkipBlanks(s[1..]) else s
  }

  // Texts handed to the JSON parser, and the bytes kept for the next read.
  function Extract(buf: string): Cut<char>
    decreases |buf|
  {
    var s := SkipBlanks(buf);
    match FindEnd(s)
    case None => Cut([], s)
    case Some(n) => Prepend(s[..n], Extract(s[n..]))
  }

  lemma {:induction false} SkipBlanksAppend(a: string, b: string)
    ensures SkipBlanks(a + b) == if SkipBlanks(a) == [] then SkipBlanks(b) else SkipBlanks(a) + b
  {
    if a == [] {
      assert a + b == b;
    } else if Blank(a[0]) {
      assert (a + b)[1..] == a[1..] + b;
      SkipBlanksAppend(a[1..], b);
    }
  }

  lemma {:induction false} ScanEndStable(s: Scan, a: string, b: string)
    requires ScanEnd(s, a).Some?
    ensures ScanEnd(s, a + b) == ScanEnd(s, a)
    decreases |a|
  {
    assert (a + b)[1..] == a[1..] + b;
    if !Closes(s, a[0]) {
      ScanEndStable(Next(s, a[0]), a[1..], b);
    }
  }

  lemma {:induction false} ExtractAcrossReads(a: string, b: string)
    ensures Extract(a + b) == Then(Extract(a), Extract(Extract(a).rest + b))
    decreases |a|
  {
    var s := SkipBlanks(a);
    SkipBlanksAppend(a, b);
    if s == [] {
      assert [] + b == b;
      ThenNothing(Extract(b));
    } else if FindEnd(s).Some? {
      var n := FindEnd(s).value;
      ScanEndStable(Outside(0), s, b);
      assert (s + b)[..n] == s[..n] && (s + b)[n..] == s[n..] + b;
      ExtractAcrossReads(s[n..], b);
      ThenPrepend(s[..n], Extract(s[n..]), Extract(Extract(s[n..]).rest + b));
    } else {
      assert SkipBlanks(s + b) == s + b;
      ThenNothing(Extract(s + b));
    }
  }

  function FeedReads(kept: string, received: seq<string>): Cut<char>
    decreases |received|
  {
    if received == [] then Cut([], kept)
    else
      var c := Extract(kept + received[0]);
      Then(c, FeedReads(c.rest, received[1..]))
  }

  lemma {:induction false} ReadsAgree(kept: string, received: seq<string>)
    requires received != []
    ensures FeedReads(kept, received) == Extract(kept + Flatten(received))
    decreases |received|
  {
    var buf, rest := kept + received[0], Flatten(received[1..]);
    assert kept + Flatten(received) == buf + rest;
    if |received| == 1 {
      assert buf + rest == buf;
      assert FeedReads(Extract(buf).rest, received[1..]) == Cut([], Extract(buf).rest);
      ThenNothing(Extract(buf));
    } else {
      ExtractAcrossReads(buf, rest);
      ReadsAgree(Extract(buf).rest, received[1..]);
    }
  }

  // For any bytes: what is extracted and what is kept depend on their concatenation only.
  lemma {:induction false} ReadsIndependent(received: seq<string>)
    ensures FeedReads("", received) == Extract(Flatten(received))
  {
    if received == [] {
      assert Flatten(received) == "";
    } else {
      ReadsAgree("", received);
      assert "" + Flatten(received) == Flatten(received);
    }
  }

  function Printed(os: seq<Value>): seq<string> {
    if os == [] then [] else [Print(os[0])] + Printed(os[1..])
  }

  // Only NULs, spaces, line ends and tabs.
  predicate Gap(s: string) {
    forall c :: c in s ==> c in "\0 \n\r\t"
  }

  // Objects written one after the other, with gaps before, between and behind them.
  function Spaced(os: seq<Value>, gaps: seq<string>): string
    requires |gaps| == |os| + 1
  {
    if os == [] then gaps[0] else gaps[0] + (Print(os[0]) + Spaced(os[1..], gaps[1..]))
  }

  lemma {:induction false} SkipsGap(gap: string, text: string)
    requires Gap(gap)
    ensures SkipBlanks(gap + text) == SkipBlanks(text)
  {
    if gap == "" {
      assert gap + text == text;
    } else {
      assert (gap + text)[1..] == gap[1..] + text;
      assert gap[0] in gap;
      SkipsGap(gap[1..], text);
    }
  }

  // ... and nothing but such characters is skipped.
  lemma {:induction false} SkipsOnlyGap(text: string)
    ensures var n := |text| - |SkipBlanks(text)|; Gap(text[..n]) && text[n..] == SkipBlanks(text)
  {
    if text != "" && Blank(text[0]) {
      SkipsOnlyGap(text[1..]);
      var n := |text| - |SkipBlanks(text)|;
      assert text[..n] == [text[0]] + text[1..][..n - 1];
    }
  }

  lemma {:induction false} ExtractSpaced(os: seq<Value>, gaps: seq<string>)
    requires |gaps| == |os| + 1 && forall g :: g in gaps ==> Gap(g)
    requires forall o :: o in os ==> o.Object? && Valid(o)
    ensures Extract(Spaced(os, gaps)) == Cut(Printed(os), "")
    decreases |os|
  {
    assert gaps[0] in gaps;
    if os == [] {
      SkipsGap(gaps[0], "");
      assert gaps[0] + "" == gaps[0];
    } else {
      var o, rest := os[0], Spaced(os[1..], gaps[1..]);
      assert o in os;
      SkipsGap(gaps[0], Print(o) + rest);
      ExtractFirst(o, rest);
      ExtractSpaced(os[1..], gaps[1..]);
    }
  }

  lemma ExtractFirst(o: Value, rest: string)
    requires o.Object? && Valid(o)
    ensures SkipBlanks(Print(o) + rest) == Print(o) + rest
    ensures Extract(Print(o) + rest) == Prepend(Print(o), Extract(rest))
  {
    var s := Print(o) + rest;
    FindsTrueEnd(o, rest);
    assert s[0] == '{' && SkipBlanks(s) == s;
    assert s[..|Print(o)|] == Print(o) && s[|Print(o)|..] == rest;
  }

  // Objects written one after the other, with any gaps, and read in any pieces come out
  // one by one, complete and in order, and nothing is kept.
  lemma {:induction false} ObjectsArriveWhole(os: seq<Value>, gaps: seq<string>, received: seq<string>)
    requires |gaps| == |os| + 1 && forall g :: g in gaps ==> Gap(g)
    requires forall o :: o in os ==> o.Object? && Valid(o)
    requires Flatten(received) == Spaced(os, gaps)
    ensures FeedReads("", received) == Cut(Printed(os), "")
  {
    ReadsIndependent(received);
    ExtractSpaced(os, gaps);
  }

  class Reader {
    var recvBuf: string
    var parsed: seq<string>

    constructor ()
      ensures recvBuf == "" && parsed == []
    {
      recvBuf, parsed := "", [];
    }

    method OnReceive(data: string)
      modifies this
      ensures Cut(parsed, recvBuf) == Then(Cut(old(parsed), []), Extract(old(recvBuf) + data))
    {
      recvBuf := recvBuf + data;
      var pos := 0;
      ghost var before := parsed;
      assert recvBuf[0..] == recvBuf;
      while pos < |recvBuf|
        invariant 0 <= pos <= |recvBuf|
        invariant recvBuf == old(recvBuf) + data
        invariant Outcome(parsed, recvBuf, pos) == Outcome(before, recvBuf, 0)
        decreases |recvBuf| - pos
      {
        ghost var at := pos;
        while pos < |recvBuf| && Blank(recvBuf[pos])
          invariant at <= pos <= |recvBuf|
          invariant SkipBlanks(recvBuf[at..]) == SkipBlanks(recvBuf[pos..])
        {
          assert recvBuf[pos..][1..] == recvBuf[pos + 1..];
          pos := pos + 1;
        }
        if pos >= |recvBuf| {
          break;
        }
        var end := FindJsonEnd(recvBuf, pos);
        if end.None? {
          break;
        }
        TakeOne(parsed, recvBuf, pos, end.value);
        parsed := parsed + [recvBuf[pos..end.value]];
        pos := end.value;
      }
      KeepRest(parsed, recvBuf, pos);
      if pos > 0 {
        recvBuf := recvBuf[pos..];
      }
    }
  }

  // What the loop amounts to once it has handed over items and moved to pos.
  ghost function Outcome(items: seq<string>, buf: string, pos: nat): Cut<char>
    requires pos <= |buf|
  {
    Then(Cut(items, []), Extract(buf[pos..]))
  }

  lemma TakeOne(items: seq<string>, buf: string, pos: nat, end: nat)
    requires pos < end <= |buf| && !Blank(buf[pos]) && FindEnd(buf[pos..]) == Some(end - pos)
    ensures Outcome(items + [buf[pos..end]], buf, end) == Outcome(items, buf, pos)
  {
    assert buf[pos..][..end - pos] == buf[pos..end] && buf[pos..][end - pos..] == buf[end..];
    ThenPush(items, buf[pos..end], Extract(buf[end..]));
  }

  lemma KeepRest(items: seq<string>, buf: string, pos: nat)
    requires pos <= |buf| && (pos < |buf| ==> !Blank(buf[pos]) && FindEnd(buf[pos..]) == None)
    ensures Outcome(items, buf, pos) == Cut(items, buf[pos..])
  {
    ThenNothing(Cut(items, buf[pos..]));
  }
}
