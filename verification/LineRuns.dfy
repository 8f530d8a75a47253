/** What a sequence of `readline` calls returns depends on the text alone, not on how it came in pieces. */
module LineRuns {
  import opened Options
  import opened LineMachine
  import opened Sequences

  function Concat(parts: seq<string>): string {
    if parts == [] then "" else parts[0] + Concat(parts[1..])
  }

  lemma {:induction false} Regroup<T>(a: seq<T>, b: seq<T>, c: seq<T>, d: seq<T>, e: seq<T>)
    requires b + c == d + e
    ensures a + b + c == a + d + e
  {
    Associative(a, b, c);
    Associative(a, d, e);
  }

  lemma {:induction false} TakeMore<T>(s: seq<T>, i: nat, j: nat)
    requires i + j <= |s|
    ensures s[..i] + s[i..][..j] == s[..i + j]
  {
  }

  lemma {:induction false} ConcatCons(s: string, parts: seq<string>)
    ensures Concat([s] + parts) == s + Concat(parts)
  {
  }

  lemma {:induction false} ConcatAppend(a: seq<string>, b: seq<string>)
    ensures Concat(a + b) == Concat(a) + Concat(b)
  {
    if a == [] {
      assert a + b == b;
    } else {
      ConcatAppend(a[1..], b);
      ConsAppend(a, b);
      Associative(a[0], Concat(a[1..]), Concat(b));
    }
  }

  // ---------- what the lines of a text are ----------

  predicate IsLine(s: string) {
    s != "" && s[|s| - 1] == '\n' && forall i :: 0 <= i < |s| - 1 ==> s[i] != '\n'
  }

  predicate Splits(s: string, r: Reader) {
    && Concat(r.lines) + r.buf == s
    && (forall l :: l in r.lines ==> IsLine(l))
    && '\n' !in r.buf
  }

  /** A line before a text that is split. */
  lemma {:induction false} SplitsCons(l: string, s: string, rest: Reader)
    requires IsLine(l) && Splits(s, rest)
    ensures Splits(l + s, Reader([l] + rest.lines, rest.buf))
  {
    ConcatCons(l, rest.lines);
    Associative(l, Concat(rest.lines), rest.buf);
  }

  lemma {:induction false} LinesSplits(s: string)
    ensures Splits(s, Lines(s))
    decreases |s|
  {
    var n := Newline(s);
    if n < |s| {
      LinesSplits(s[n + 1..]);
      assert IsLine(s[..n + 1]);
      SplitsCons(s[..n + 1], s[n + 1..], Lines(s[n + 1..]));
      assert s[..n + 1] + s[n + 1..] == s;
    } else {
      assert Concat([]) + s == s;
    }
  }

  lemma {:induction false} NewlineAt(s: string, n: nat)
    requires n <= |s| && (forall i :: 0 <= i < n ==> s[i] != '\n') && (n < |s| ==> s[n] == '\n')
    ensures Newline(s) == n
  {
  }

  /** The lines of a text are the only way to split it after each newline. */
  lemma {:induction false} LinesUnique(s: string, r: Reader)
    requires Splits(s, r)
    ensures r == Lines(s)
    decreases |s|
  {
    if r.lines == [] {
      NewlineAt(s, |s|);
    } else {
      var l, tail := r.lines[0], Reader(r.lines[1..], r.buf);
      var n := |l| - 1;
      assert l in r.lines;
      ConcatCons(l, tail.lines);
      assert [l] + tail.lines == r.lines;
      Associative(l, Concat(tail.lines), tail.buf);
      assert forall i :: 0 <= i < n ==> s[i] == l[i];
      NewlineAt(s, n);
      assert s[n + 1..] == Concat(tail.lines) + tail.buf;
      LinesUnique(s[n + 1..], tail);
    }
  }

  /** Text that comes later only adds to the lines found before it. */
  lemma {:induction false} LinesAppend(s: string, t: string)
    ensures var a := Lines(s);
            var b := Lines(a.buf + t);
            Lines(s + t) == Reader(a.lines + b.lines, b.buf)
  {
    var a := Lines(s);
    var b := Lines(a.buf + t);
    LinesSplits(s);
    LinesSplits(a.buf + t);
    ConcatAppend(a.lines, b.lines);
    Associative(Concat(a.lines), Concat(b.lines), b.buf);
    Associative(Concat(a.lines), a.buf, t);
    LinesUnique(s + t, Reader(a.lines + b.lines, b.buf));
  }

  // ---------- what the inputs promise ----------

  /** The strings the inputs make `readline` return after `buf` was read, and the text left over:
      each line when it is complete, and at the end of the file what there is. */
  function Feed(buf: string, inputs: seq<Input>): Reader
    decreases |inputs|
  {
    if inputs == [] then
      Reader([], buf)
    else if inputs[0].GiveUp? then
      Feed(buf, inputs[1..])
    else if inputs[0].text == "" then
      var rest := Feed("", inputs[1..]);
      Reader([buf] + rest.lines, rest.buf)
    else
      var now := Lines(buf + inputs[0].text);
      var rest := Feed(now.buf, inputs[1..]);
      Reader(now.lines + rest.lines, rest.buf)
  }

  lemma {:induction false} FeedAppend(buf: string, a: seq<Input>, b: seq<Input>)
    ensures var x := Feed(buf, a);
            var y := Feed(x.buf, b);
            Feed(buf, a + b) == Reader(x.lines + y.lines, y.buf)
    decreases |a|
  {
    if a == [] {
      assert a + b == b;
    } else {
      assert (a + b)[1..] == a[1..] + b;
      if a[0].GiveUp? {
        FeedAppend(buf, a[1..], b);
      } else if a[0].text == "" {
        FeedAppend("", a[1..], b);
      } else {
        FeedAppend(Lines(buf + a[0].text).buf, a[1..], b);
      }
    }
  }

  /** One call takes the next of the promised strings and leaves the others to come. */
  lemma {:induction false} CallDelivers(r: Reader, inputs: seq<Input>)
    ensures var c := ReadLine(r, inputs);
            var fed := Feed(r.buf, inputs[..c.used]);
            && (if c.result.Some? then [c.result.value] else []) + c.reader.lines == r.lines + fed.lines
            && c.reader.buf == fed.buf
            && (c.result.None? ==> c.reader.lines == [])
    decreases |inputs|
  {
    var c := ReadLine(r, inputs);
    if r.lines != [] || inputs == [] {
      assert inputs[..c.used] == [];
    } else if inputs[0].GiveUp? || inputs[0].text == "" {
      assert inputs[..1] == [inputs[0]] && inputs[..1][1..] == [];
    } else {
      var now := Lines(r.buf + inputs[0].text);
      CallDelivers(now, inputs[1..]);
      assert inputs[..c.used][1..] == inputs[1..][..c.used - 1];
    }
  }

  /** What `n` calls returned, None left out, how many inputs they used, and the reader they left. */
  datatype Session = Session(results: seq<string>, used: nat, reader: Reader)

  function OneMore(s: Session, c: Call): Session {
    Session(s.results + (if c.result.Some? then [c.result.value] else []), s.used + c.used, c.reader)
  }

  function Calls(inputs: seq<Input>, n: nat): (s: Session)
    ensures s.used <= |inputs|
  {
    if n == 0 then
      Session([], 0, Reader([], ""))
    else
      var s := Calls(inputs, n - 1);
      OneMore(s, ReadLine(s.reader, inputs[s.used..]))
  }

  /** The strings returned and those queued are the strings that these inputs promise. */
  predicate Delivered(s: Session, inputs: seq<Input>) {
    Reader(s.results + s.reader.lines, s.reader.buf) == Feed("", inputs)
  }

  lemma {:induction false} OneMoreDelivers(s: Session, before: seq<Input>, later: seq<Input>)
    requires Delivered(s, before)
    ensures var c := ReadLine(s.reader, later);
            Delivered(OneMore(s, c), before + later[..c.used])
  {
    var c := ReadLine(s.reader, later);
    var got := if c.result.Some? then [c.result.value] else [];
    CallDelivers(s.reader, later);
    FeedAppend("", before, later[..c.used]);
    Regroup(s.results, got, c.reader.lines, s.reader.lines, Feed(s.reader.buf, later[..c.used]).lines);
  }

  lemma {:induction false} NextCallDelivers(inputs: seq<Input>, n: nat)
    requires Delivered(Calls(inputs, n), inputs[..Calls(inputs, n).used])
    ensures Delivered(Calls(inputs, n + 1), inputs[..Calls(inputs, n + 1).used])
  {
    var s := Calls(inputs, n);
    var later := inputs[s.used..];
    var c := ReadLine(s.reader, later);
    OneMoreDelivers(s, inputs[..s.used], later);
    assert Delivered(OneMore(s, c), inputs[..s.used] + later[..c.used]);
    TakeMore(inputs, s.used, c.used);
    assert Calls(inputs, n + 1) == OneMore(s, c);
    assert OneMore(s, c).used == s.used + c.used;
  }

  /** So it is after any number of calls. */
  lemma {:induction false} CallsDeliver(inputs: seq<Input>, n: nat)
    ensures Delivered(Calls(inputs, n), inputs[..Calls(inputs, n).used])
  {
    if n == 0 {
      assert inputs[..0] == [];
    } else {
      CallsDeliver(inputs, n - 1);
      NextCallDelivers(inputs, n - 1);
    }
  }

  // ---------- what one call returns ----------

  function Text(inputs: seq<Input>): string {
    if inputs == [] then "" else (if inputs[0].Read? then inputs[0].text else "") + Text(inputs[1..])
  }

  /** The input ends a call that found no line before it. */
  predicate Decides(i: Input) {
    i.GiveUp? || i.text == "" || '\n' in i.text
  }

  /** The first input that ends the call, if there is one. */
  predicate DecidedAt(inputs: seq<Input>, k: nat) {
    k <= |inputs| && (forall i :: 0 <= i < k ==> !Decides(inputs[i])) && (k < |inputs| ==> Decides(inputs[k]))
  }

  lemma {:induction false} DecidedAtNext(inputs: seq<Input>, k: nat)
    requires DecidedAt(inputs, k) && k > 0
    ensures DecidedAt(inputs[1..], k - 1) && !Decides(inputs[0])
    ensures inputs[..k] == [inputs[0]] + inputs[1..][..k - 1]
    ensures Text(inputs[..k]) == inputs[0].text + Text(inputs[1..][..k - 1])
  {
    assert inputs[..k][1..] == inputs[1..][..k - 1];
  }

  /** Text without a newline is all kept. */
  lemma {:induction false} NoLines(s: string)
    requires '\n' !in s
    ensures Lines(s) == Reader([], s)
  {
    NewlineAt(s, |s|);
  }

  lemma {:induction false} SomeLine(s: string)
    requires '\n' in s
    ensures Lines(s).lines != []
  {
    assert Newline(s) < |s|;
  }

  /** One call with an empty queue: it keeps what it reads until an input ends it. A give-up, or the
      end of the inputs, makes it return None; the end of the file, what was kept; and a newline, the
      first line, after which the other lines are queued. */
  lemma {:induction false} OneCall(r: Reader, inputs: seq<Input>, k: nat)
    requires r.lines == [] && '\n' !in r.buf && DecidedAt(inputs, k)
    ensures var c := ReadLine(r, inputs);
            var kept := r.buf + Text(inputs[..k]);
            if k == |inputs| then
              c == Call(None, k, Reader([], kept))
            else if inputs[k].GiveUp? then
              c == Call(None, k + 1, Reader([], kept))
            else if inputs[k].text == "" then
              c == Call(Some(kept), k + 1, Reader([], ""))
            else
              var found := Lines(kept + inputs[k].text);
              found.lines != [] && c == Call(Some(found.lines[0]), k + 1, Reader(found.lines[1..], found.buf))
    decreases k
  {
    if k == 0 {
      assert inputs[..0] == [] && r.buf + "" == r.buf && r == Reader([], r.buf);
      if inputs != [] && inputs[0].Read? && inputs[0].text != "" {
        SomeLine(r.buf + inputs[0].text);
        OneRead(r, inputs);
      }
    } else {
      DecidedAtNext(inputs, k);
      NoLines(r.buf + inputs[0].text);
      OneCall(Reader([], r.buf + inputs[0].text), inputs[1..], k - 1);
      Associative(r.buf, inputs[0].text, Text(inputs[1..][..k - 1]));
      assert k < |inputs| ==> inputs[1..][k - 1] == inputs[k];
    }
  }

  /** A read with a newline ends the call. */
  lemma {:induction false} OneRead(r: Reader, inputs: seq<Input>)
    requires r.lines == [] && inputs != [] && inputs[0].Read? && inputs[0].text != ""
    requires Lines(r.buf + inputs[0].text).lines != []
    ensures var found := Lines(r.buf + inputs[0].text);
            ReadLine(r, inputs) == Call(Some(found.lines[0]), 1, Reader(found.lines[1..], found.buf))
  {
  }

  /** A call returns None exactly when nothing is queued and the first input that ends it is a
      give-up, or there is none. */
  lemma {:induction false} GivesUpIff(r: Reader, inputs: seq<Input>, k: nat)
    requires '\n' !in r.buf && DecidedAt(inputs, k)
    ensures ReadLine(r, inputs).result.None? <==> r.lines == [] && (k == |inputs| || inputs[k].GiveUp?)
  {
    if r.lines == [] {
      OneCall(r, inputs, k);
    }
  }

  /** What is kept never holds a newline, in any session. */
  lemma {:induction false} NoNewlineKept(r: Reader, inputs: seq<Input>)
    requires '\n' !in r.buf
    ensures '\n' !in ReadLine(r, inputs).reader.buf
    decreases |inputs|
  {
    if r.lines == [] && inputs != [] && inputs[0].Read? && inputs[0].text != "" {
      LinesSplits(r.buf + inputs[0].text);
      NoNewlineKept(Lines(r.buf + inputs[0].text), inputs[1..]);
    }
  }

  lemma {:induction false} SessionKeepsNoNewline(inputs: seq<Input>, n: nat)
    ensures '\n' !in Calls(inputs, n).reader.buf
  {
    if n > 0 {
      SessionKeepsNoNewline(inputs, n - 1);
      var s := Calls(inputs, n - 1);
      NoNewlineKept(s.reader, inputs[s.used..]);
    }
  }

  // ---------- the text alone matters ----------

  predicate NoEof(inputs: seq<Input>) {
    forall i :: i in inputs ==> i != Read("")
  }

  /** However a text is cut into reads, and wherever calls give up in between, it promises its
      lines and keeps what comes after them. */
  lemma {:induction false} FeedIsLines(buf: string, inputs: seq<Input>)
    requires NoEof(inputs) && '\n' !in buf
    ensures Feed(buf, inputs) == Lines(buf + Text(inputs))
    decreases |inputs|
  {
    if inputs == [] {
      assert buf + "" == buf;
      NewlineAt(buf, |buf|);
    } else {
      var text := if inputs[0].Read? then inputs[0].text else "";
      Associative(buf, text, Text(inputs[1..]));
      assert NoEof(inputs[1..]) by {
        assert forall i :: i in inputs[1..] ==> i in inputs;
      }
      assert inputs[0] in inputs;
      if inputs[0].Read? {
        var now := Lines(buf + text);
        LinesSplits(buf + text);
        FeedIsLines(now.buf, inputs[1..]);
        LinesAppend(buf + text, Text(inputs[1..]));
      } else {
        assert buf + text == buf;
        FeedIsLines(buf, inputs[1..]);
      }
    }
  }

  /** Calls that used up a whole file and its end returned the lines of the file's text and then the
      rest of it, whatever the pieces and the timeouts were. */
  lemma {:induction false} WholeFile(inputs: seq<Input>, k: nat, n: nat)
    requires k < |inputs| && NoEof(inputs[..k]) && inputs[k] == Read("")
    requires Calls(inputs, n).used == k + 1
    ensures var file := Lines(Text(inputs[..k]));
            var s := Calls(inputs, n);
            s.results + s.reader.lines == file.lines + [file.buf] && s.reader.buf == ""
  {
    CallsDeliver(inputs, n);
    FeedIsLines("", inputs[..k]);
    FeedAppend("", inputs[..k], [inputs[k]]);
    assert "" + Text(inputs[..k]) == Text(inputs[..k]);
    assert inputs[..k + 1] == inputs[..k] + [inputs[k]];
    assert [inputs[k]][1..] == [];
  }

  /** A call stops at the end of the file, and keeps nothing if it got there. */
  lemma {:induction false} StopsAtEof(r: Reader, inputs: seq<Input>, k: nat)
    requires k < |inputs| && inputs[k] == Read("")
    ensures var c := ReadLine(r, inputs);
            && c.used <= k + 1
            && (c.used == k + 1 ==> c.reader == Reader([], ""))
            && (c.used == 0 ==> r.lines != [] && c.reader.lines == r.lines[1..])
    decreases k
  {
    if r.lines == [] && inputs[0].Read? && inputs[0].text != "" {
      assert inputs[1..][k - 1] == inputs[k];
      StopsAtEof(Lines(r.buf + inputs[0].text), inputs[1..], k - 1);
    }
  }

  /** Every call before the end takes a line from the queue or gets on in the input. */
  lemma {:induction false} CallGetsOn(inputs: seq<Input>, k: nat, n: nat)
    requires k < |inputs| && inputs[k] == Read("") && Calls(inputs, n).used <= k
    ensures var s, t := Calls(inputs, n), Calls(inputs, n + 1);
            && s.used <= t.used <= k + 1
            && (t.used == k + 1 ==> t.reader == Reader([], ""))
            && (t.used == s.used ==> |t.reader.lines| < |s.reader.lines|)
  {
    var s := Calls(inputs, n);
    var later := inputs[s.used..];
    assert later[k - s.used] == inputs[k];
    StopsAtEof(s.reader, later, k - s.used);
    assert Calls(inputs, n + 1) == OneMore(s, ReadLine(s.reader, later));
  }

  /** So some call ends the file. */
  lemma {:induction false} GetsToEof(inputs: seq<Input>, k: nat, n: nat) returns (m: nat)
    requires k < |inputs| && inputs[k] == Read("") && Calls(inputs, n).used <= k
    ensures Calls(inputs, m).used == k + 1 && Calls(inputs, m).reader == Reader([], "")
    decreases k - Calls(inputs, n).used, |Calls(inputs, n).reader.lines|
  {
    CallGetsOn(inputs, k, n);
    if Calls(inputs, n + 1).used == k + 1 {
      m := n + 1;
    } else {
      m := GetsToEof(inputs, k, n + 1);
    }
  }

  /** However a file is cut into reads, and wherever calls give up in between, after some number of
      calls exactly the file has been read, and they returned the lines of its text and then the rest. */
  lemma {:induction false} ChunkIndependent(inputs: seq<Input>, k: nat) returns (n: nat)
    requires k < |inputs| && NoEof(inputs[..k]) && inputs[k] == Read("")
    ensures var file := Lines(Text(inputs[..k]));
            Calls(inputs, n) == Session(file.lines + [file.buf], k + 1, Reader([], ""))
  {
    n := GetsToEof(inputs, k, 0);
    WholeFile(inputs, k, n);
    var s := Calls(inputs, n);
    assert s.results + [] == s.results;
  }

  lemma {:induction false} TurnKeepsText(buf: string, text: string)
    ensures var now := if text == "" then Reader([buf], "") else Lines(buf + text);
            Concat(now.lines) + now.buf == buf + text
  {
    if text == "" {
      ConcatCons(buf, []);
      assert [buf] + [] == [buf];
    } else {
      LinesSplits(buf + text);
    }
  }

  /** What one turn found and what the later ones find, put together. */
  lemma {:induction false} TurnsKeepText(buf: string, text: string, later: string, now: Reader, fed: Reader)
    requires Concat(now.lines) + now.buf == buf + text
    requires Concat(fed.lines) + fed.buf == now.buf + later
    ensures Concat(now.lines + fed.lines) + fed.buf == buf + (text + later)
  {
    ConcatAppend(now.lines, fed.lines);
    Associative(Concat(now.lines), Concat(fed.lines), fed.buf);
    Associative(Concat(now.lines), now.buf, later);
    Associative(buf, text, later);
  }

  /** No character is lost, doubled or moved: what was read is what was returned, what is queued
      and what is buffered, in this order. */
  lemma {:induction false} FeedKeepsText(buf: string, inputs: seq<Input>)
    ensures var fed := Feed(buf, inputs);
            Concat(fed.lines) + fed.buf == buf + Text(inputs)
    decreases |inputs|
  {
    if inputs == [] {
      assert "" + buf == buf + "";
    } else if inputs[0].GiveUp? {
      FeedKeepsText(buf, inputs[1..]);
      assert Text(inputs) == "" + Text(inputs[1..]);
    } else {
      var text, rest := inputs[0].text, inputs[1..];
      var now := if text == "" then Reader([buf], "") else Lines(buf + text);
      TurnKeepsText(buf, text);
      FeedKeepsText(now.buf, rest);
      TurnsKeepText(buf, text, Text(rest), now, Feed(now.buf, rest));
    }
  }

  lemma {:induction false} NothingLost(inputs: seq<Input>, n: nat)
    ensures var s := Calls(inputs, n);
            Concat(s.results) + Concat(s.reader.lines) + s.reader.buf == Text(inputs[..s.used])
  {
    var s := Calls(inputs, n);
    CallsDeliver(inputs, n);
    FeedKeepsText("", inputs[..s.used]);
    ConcatAppend(s.results, s.reader.lines);
  }
}
