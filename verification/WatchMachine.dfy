/** Following a log file in pieces: what `WatchLog` in munet/watchlog.py does to its state. */
module WatchMachine {
  import opened Options

  /** The file at the watched path; its encoding has one byte per character. */
  datatype File = File(inode: nat, mtime: int, ctime: int, data: string)

  datatype Stat = Stat(inode: nat, mtime: int, ctime: int, size: nat)

  function StatOf(f: File): Stat {
    Stat(f.inode, f.mtime, f.ctime, |f.data|)
  }

  datatype Watch = Watch(content: string, stat: Option<Stat>, snapMark: nat, userMark: nat)

  const EMPTY := Watch("", None, 0, 0)

  /** `f.seek(from)` and `f.read(count)`. */
  function ReadFrom(data: string, from: nat, count: nat): string {
    if from > |data| then ""
    else if from + count > |data| then data[from..]
    else data[from..from + count]
  }

  /** The state after a call, what it returned, whether it raised, and whether it reset the object. */
  datatype Update = Update(w: Watch, text: string, raised: bool, reset: bool)

  predicate Replaced(w: Watch, f: File) {
    w.stat.Some? && w.stat.value.inode != f.inode && w.content != ""
  }

  predicate Shrunk(w: Watch, f: File) {
    w.stat.Some? && w.stat.value.size > |f.data|
  }

  /** `update_content` when the file is `f` at its `stat()` and has the data `later` when it is
      read. A missing file that was there before fails an assertion; a replaced file resets the
      object, whose `stat` is then None, and reading the size of None raises. */
  function UpdateContent(w: Watch, f: Option<File>, later: string): Update {
    if f.None? then
      Update(w.(stat := None), "", w.stat.Some?, false)
    else
      var stat := StatOf(f.value);
      if w.stat == Some(stat) then
        Update(w, "", false, false)
      else if Replaced(w, f.value) then
        Update(EMPTY, "", true, true)
      else
        var shrunk := Shrunk(w, f.value);
        var osize := if shrunk || w.stat.None? then 0 else w.stat.value.size;
        var w' := if shrunk then EMPTY else w.(stat := Some(stat));
        if osize == stat.size then
          Update(w', "", false, shrunk)
        else
          var text := ReadFrom(later, osize, stat.size - osize);
          Update(w'.(content := w'.content + text), text, false, shrunk)
  }

  /** `content[mark:]`, with Python's meaning of negative and of large marks. */
  function FromMark(w: Watch, mark: int): string {
    var n := |w.content|;
    var from := if mark < -n then 0 else if mark < 0 then n + mark else if mark > n then n else mark;
    w.content[from..]
  }

  function UpdateIf(update: bool, w: Watch, f: Option<File>, later: string): Update {
    if update then UpdateContent(w, f, later) else Update(w, "", false, false)
  }

  /** `snapshot`. */
  function Snapshot(w: Watch, update: bool, f: Option<File>, later: string): Update {
    var u := UpdateIf(update, w, f, later);
    if u.raised then u
    else u.(w := u.w.(snapMark := |u.w.content|), text := FromMark(u.w, u.w.snapMark))
  }

  /** `peek_snapshot`. */
  function Peek(w: Watch, update: bool, f: Option<File>, later: string): Update {
    var u := UpdateIf(update, w, f, later);
    if u.raised then u else u.(text := FromMark(u.w, u.w.snapMark))
  }
}
