/** Whole runs of a watched log: what the object holds and what its snapshots delivered. */
module WatchRuns {
  import opened Options
  import opened WatchMachine

  // ---------- one update ----------

  /** The content is what the file held up to the size last seen. */
  predicate Agrees(w: Watch, data: string) {
    if w.stat.None? then w.content == ""
    else w.stat.value.size <= |data| && w.content == data[..w.stat.value.size]
  }

  /** The content is as long as the size last seen. */
  predicate Coherent(w: Watch) {
    |w.content| == if w.stat.None? then 0 else w.stat.value.size
  }

  /** What an update finds: nothing was read from a file that is gone, a shrunk file is empty, and
      a file that neither shrank nor was replaced still begins with what was read. */
  predicate Continues(w: Watch, f: Option<File>) {
    if f.None? then w.content == ""
    else if Replaced(w, f.value) then true
    else if Shrunk(w, f.value) then f.value.data == ""
    else w.content <= f.value.data
  }

  /** Exactly when an update leaves the content in agreement with the file, whatever is appended
      to the file between its `stat` and its `read`. */
  lemma {:induction false} UpdateAgreesIff(w: Watch, f: Option<File>, during: string)
    requires Coherent(w)
    ensures var later := if f.Some? then f.value.data + during else "";
            Agrees(UpdateContent(w, f, later).w, later) <==> Continues(w, f)
  {
  }

  /** The size of a shrunk file is forgotten: its text is read into the content twice. */
  lemma {:induction false} ShrunkIsReadTwice(w: Watch, f: File)
    requires Shrunk(w, f) && !Replaced(w, f) && f.data != ""
    ensures var u := UpdateContent(w, Some(f), f.data);
            var v := UpdateContent(u.w, Some(f), f.data);
            u.w.stat == None && u.w.content == f.data && v.w.content == f.data + f.data
  {
  }

  /** A replaced file makes the update raise instead of starting over; the update after that one
      reads the new file from its beginning. */
  lemma {:induction false} ReplacedRaises(w: Watch, f: File)
    requires Replaced(w, f)
    ensures var u := UpdateContent(w, Some(f), f.data);
            var v := UpdateContent(u.w, Some(f), f.data);
            u.raised && u.w == EMPTY && !v.raised && v.w.content == f.data && v.w.stat == Some(StatOf(f))
  {
  }

  /** What an update does: when it raises, when it starts over, and what was seen last. */
  lemma {:induction false} UpdateFate(w: Watch, f: Option<File>, later: string)
    ensures var u := UpdateContent(w, f, later);
            var gone := f.None? && w.stat.Some?;
            var replaced := f.Some? && w.stat.Some? && w.stat.value.inode != f.value.inode && w.content != "";
            var shrunk := f.Some? && w.stat.Some? && w.stat.value.size > |f.value.data|;
            && (u.raised <==> gone || replaced)
            && (u.reset <==> replaced || shrunk)
            && (f.None? ==> u.w.stat == None && u.w.content == w.content && u.text == "")
            && (f.Some? && !u.reset ==> u.w.stat == Some(StatOf(f.value)) && u.w.content == w.content + u.text)
            && (u.reset ==> u.w.stat == None && u.w.content == u.text)
  {
  }

  /** A file that is gone makes one update raise; the text read from it is kept, the next update finds
      nothing wrong, and when there is a file again its text comes after the old one. */
  lemma {:induction false} GoneRaises(w: Watch, later: string, f: File)
    requires w.stat.Some?
    ensures var u := UpdateContent(w, None, later);
            var v := UpdateContent(u.w, None, later);
            && u.raised && !v.raised && v.w == u.w && v.w.content == w.content
            && UpdateContent(u.w, Some(f), f.data).w.content == w.content + f.data
  {
  }

  /** A peek with an update sees what the update adds, and is lost with it when it raises. */
  lemma {:induction false} PeekUpdates(w: Watch, f: Option<File>, later: string)
    requires w.snapMark <= |w.content|
    ensures var u, p := UpdateContent(w, f, later), Peek(w, true, f, later);
            && p.w == u.w && p.raised == u.raised && p.reset == u.reset
            && (!u.raised ==> p.text == if u.reset then u.text else w.content[w.snapMark..] + u.text)
  {
    UpdateFate(w, f, later);
    UpdateGrows(w, f, later);
  }

  /** The slices a mark selects: everything from it on, a negative one counting from the end. */
  lemma {:induction false} MarkSlices(w: Watch, mark: int)
    ensures var t := FromMark(w, mark);
            && |t| <= |w.content| && t == w.content[|w.content| - |t|..]
            && |t| == if mark >= 0 then if mark < |w.content| then |w.content| - mark else 0
                      else if -mark < |w.content| then -mark else |w.content|
  {
  }

  /** A peek does not use up what it shows: a snapshot without an update returns the same again,
      and the snapshot after that one nothing. */
  lemma {:induction false} PeekThenSnapshot(w: Watch, update: bool, f: Option<File>, later: string)
    requires !Peek(w, update, f, later).raised
    ensures var u := Peek(w, update, f, later);
            var v := Snapshot(u.w, false, f, later);
            v.text == u.text && !v.raised && v.w.content == u.w.content && v.w.userMark == u.w.userMark
            && Snapshot(v.w, false, f, later).text == ""
  {
  }

  /** What a user mark is for: the content from a mark set now on is the text that updates add. */
  lemma {:induction false} MarkSeesNew(w: Watch, f: Option<File>, later: string)
    ensures var marked := w.(userMark := |w.content|);
            var u := UpdateContent(marked, f, later);
            !u.raised && !u.reset ==> FromMark(u.w, u.w.userMark) == u.text && u.w.content == w.content + u.text
  {
  }

  // ---------- runs ----------

  /** Text appended to the file, with the times it leaves on it. */
  datatype Append = Append(text: string, mtime: int, ctime: int)

  /** A call of the program or a change of the file by somebody else. `during` is what is appended
      between the call's `stat` and its `read`. */
  datatype Step =
    | Appended(a: Append)
    | Changed(file: Option<File>)  // created, removed, replaced, truncated or rewritten
    | DoUpdate(during: Append)
    | DoSnapshot(update: bool, during: Append)
    | DoPeek(update: bool, during: Append)
    | DoSetMark
    | DoReset

  /** `delivered` is the concatenation of the snapshots since the object was last reset. */
  datatype World = World(file: Option<File>, w: Watch, delivered: string, raised: bool)

  function AppendTo(f: Option<File>, a: Append): Option<File> {
    if f.None? then None else Some(File(f.value.inode, a.mtime, a.ctime, f.value.data + a.text))
  }

  function DataOf(f: Option<File>): string {
    if f.None? then "" else f.value.data
  }

  function Called(x: World, u: Update, after: Option<File>, given: string): World {
    World(after, u.w, (if u.reset then "" else x.delivered) + given, u.raised)
  }

  function Next(x: World, step: Step): World {
    match step
    case Appended(a) => x.(file := AppendTo(x.file, a))
    case Changed(file) => x.(file := file)
    case DoUpdate(during) =>
      var after := AppendTo(x.file, during);
      Called(x, UpdateContent(x.w, x.file, DataOf(after)), after, "")
    case DoSnapshot(update, during) =>
      var after := if update then AppendTo(x.file, during) else x.file;
      var u := Snapshot(x.w, update, x.file, DataOf(after));
      Called(x, u, after, if u.raised then "" else u.text)
    case DoPeek(update, during) =>
      var after := if update then AppendTo(x.file, during) else x.file;
      Called(x, Peek(x.w, update, x.file, DataOf(after)), after, "")
    case DoSetMark => x.(w := x.w.(userMark := |x.w.content|))
    case DoReset => x.(w := EMPTY, delivered := "")
  }

  /** The object is made while the file is `f`. */
  function Start(f: Option<File>): World {
    if f.Some? then Next(World(f, EMPTY, "", false), DoSnapshot(true, Append("", f.value.mtime, f.value.ctime)))
    else World(f, EMPTY, "", false)
  }

  function Run(f: Option<File>, steps: seq<Step>): World {
    if steps == [] then Start(f)
    else Next(Run(f, steps[..|steps| - 1]), steps[|steps| - 1])
  }

  predicate Delivered(x: World) {
    && x.w.userMark <= |x.w.content|
    && x.w.snapMark <= |x.w.content|
    && x.delivered == x.w.content[..x.w.snapMark]
  }

  /** Between resets an update only adds to the content; a reset empties it and clears the marks. */
  predicate Grows(w: Watch, u: Update) {
    if u.reset then u.w.snapMark == u.w.userMark == 0
    else u.w.snapMark == w.snapMark && u.w.userMark == w.userMark && w.content <= u.w.content
  }

  lemma {:induction false} UpdateGrows(w: Watch, f: Option<File>, later: string)
    ensures Grows(w, UpdateContent(w, f, later))
  {
  }

  lemma {:induction false} SnapshotDelivers(x: World, update: bool, during: Append)
    requires Delivered(x)
    ensures Delivered(Next(x, DoSnapshot(update, during)))
  {
    var after := if update then AppendTo(x.file, during) else x.file;
    var u := UpdateIf(update, x.w, x.file, DataOf(after));
    UpdateGrows(x.w, x.file, DataOf(after));
    assert Grows(x.w, u);
    if !u.raised {
      var c, m := u.w.content, u.w.snapMark;
      assert (if u.reset then "" else x.delivered) == c[..m];
      assert c[..m] + c[m..] == c == c[..|c|];
    }
  }

  lemma {:induction false} NextDelivers(x: World, step: Step)
    requires Delivered(x)
    ensures Delivered(Next(x, step))
  {
    match step
    case DoUpdate(during) =>
      UpdateGrows(x.w, x.file, DataOf(AppendTo(x.file, during)));
    case DoSnapshot(update, during) =>
      SnapshotDelivers(x, update, during);
    case DoPeek(update, during) =>
      UpdateGrows(x.w, x.file, DataOf(if update then AppendTo(x.file, during) else x.file));
    case _ =>
  }

  /** In every run, whatever happens to the file, between two resets the snapshots together are
      the content up to the snapshot mark, and both marks are within the content. */
  lemma {:induction false} SnapshotsDeliverOnce(f: Option<File>, steps: seq<Step>)
    ensures Delivered(Run(f, steps))
  {
    if steps == [] {
      if f.Some? {
        NextDelivers(World(f, EMPTY, "", false), DoSnapshot(true, Append("", f.value.mtime, f.value.ctime)));
      }
    } else {
      SnapshotsDeliverOnce(f, steps[..|steps| - 1]);
      NextDelivers(Run(f, steps[..|steps| - 1]), steps[|steps| - 1]);
    }
  }

  /** The file is made at most once and then only appended to. */
  predicate AppendOnly(f: Option<File>, steps: seq<Step>) {
    forall i :: 0 <= i < |steps| && steps[i].Changed? ==> steps[i].file.Some? && Run(f, steps[..i]).file.None?
  }

  predicate Following(x: World) {
    && Coherent(x.w)
    && Agrees(x.w, DataOf(x.file))
    && (x.file.None? ==> x.w.stat.None?)
    && (x.w.stat.Some? ==> x.w.stat.value.inode == x.file.value.inode)
    && !x.raised
  }

  lemma {:induction false} UpdateFollows(x: World, during: Append)
    requires Following(x)
    ensures var after := AppendTo(x.file, during);
            var u := UpdateContent(x.w, x.file, DataOf(after));
            && Following(World(after, u.w, "", u.raised)) && !u.reset
            && (x.file.Some? ==> u.w.content == x.file.value.data)
  {
  }

  lemma {:induction false} NextFollows(x: World, step: Step)
    requires Following(x)
    requires step.Changed? ==> step.file.Some? && x.file.None?
    ensures Following(Next(x, step))
  {
    match step
    case Appended(a) =>
      if x.file.Some? && x.w.stat.Some? {
        var n := x.w.stat.value.size;
        assert (x.file.value.data + a.text)[..n] == x.file.value.data[..n];
      }
    case DoUpdate(during) => UpdateFollows(x, during);
    case DoSnapshot(update, during) => UpdateFollows(x, during);
    case DoPeek(update, during) => UpdateFollows(x, during);
    case _ =>
  }

  /** While a file is only appended to, no call raises and the content is always the part of the
      file that was there when its size was last looked at, under every interleaving. */
  lemma {:induction false} AppendOnlyAgrees(f: Option<File>, steps: seq<Step>)
    requires AppendOnly(f, steps)
    ensures var x := Run(f, steps);
            Agrees(x.w, DataOf(x.file)) && Coherent(x.w) && !x.raised
    ensures Following(Run(f, steps))
  {
    if steps == [] {
      if f.Some? {
        NextFollows(World(f, EMPTY, "", false), DoSnapshot(true, Append("", f.value.mtime, f.value.ctime)));
      }
    } else {
      var init := steps[..|steps| - 1];
      forall i | 0 <= i < |init| && init[i].Changed?
        ensures init[i].file.Some? && Run(f, init[..i]).file.None?
      {
        assert steps[i].Changed? && steps[..i] == init[..i];
      }
      AppendOnlyAgrees(f, init);
      assert steps[|init|].Changed? ==> Run(f, init).file.None?;
      NextFollows(Run(f, init), steps[|init|]);
    }
  }

  /** A log made on an existing file has read it and counts it as delivered. */
  lemma {:induction false} StartDelivers(f: Option<File>)
    ensures var x := Start(f);
            && x.delivered == x.w.content == DataOf(f) && x.w.snapMark == |DataOf(f)| && x.w.userMark == 0 && !x.raised
            && x.w.stat == if f.Some? then Some(StatOf(f.value)) else None
  {
    if f.Some? {
      var empty := World(f, EMPTY, "", false);
      var during := Append("", f.value.mtime, f.value.ctime);
      assert f.value.data + "" == f.value.data;
      UpdateFollows(empty, during);
      UpdateFate(EMPTY, f, f.value.data);
      var u := UpdateContent(EMPTY, f, f.value.data);
      assert u.w.content == f.value.data;
      assert u.w.content[0..] == u.w.content;
    }
  }

  lemma {:induction false} PeekShows(x: World, during: Append)
    requires Following(x) && Delivered(x) && x.file.Some?
    ensures x.delivered + Peek(x.w, true, x.file, DataOf(AppendTo(x.file, during))).text == x.file.value.data
  {
    var later := DataOf(AppendTo(x.file, during));
    UpdateFollows(x, during);
    UpdateFate(x.w, x.file, later);
    PeekUpdates(x.w, x.file, later);
    AroundMark(x.w.content, x.w.snapMark, UpdateContent(x.w, x.file, later).text);
  }

  lemma {:induction false} AroundMark(content: string, mark: nat, text: string)
    requires mark <= |content|
    ensures content[..mark] + (content[mark..] + text) == content + text
  {
    assert content == content[..mark] + content[mark..];
  }

  /** After such a run, a peek shows all of the file that the snapshots have not delivered yet. */
  lemma {:induction false} PeekShowsRest(f: Option<File>, steps: seq<Step>, during: Append)
    requires AppendOnly(f, steps)
    ensures var x := Run(f, steps);
            var later := DataOf(AppendTo(x.file, during));
            x.file.Some? ==> x.delivered + Peek(x.w, true, x.file, later).text == x.file.value.data
  {
    AppendOnlyAgrees(f, steps);
    SnapshotsDeliverOnce(f, steps);
    if Run(f, steps).file.Some? {
      PeekShows(Run(f, steps), during);
    }
  }

  /** After such a run, one more snapshot completes the delivery: all snapshots since the last
      reset are the file as it was at that snapshot. */
  lemma {:induction false} SnapshotCatchesUp(f: Option<File>, steps: seq<Step>, during: Append)
    requires AppendOnly(f, steps)
    ensures var x := Run(f, steps);
            x.file.Some? ==> Next(x, DoSnapshot(true, during)).delivered == x.file.value.data
  {
    var x := Run(f, steps);
    AppendOnlyAgrees(f, steps);
    SnapshotsDeliverOnce(f, steps);
    UpdateFollows(x, during);
    NextDelivers(x, DoSnapshot(true, during));
  }
}
