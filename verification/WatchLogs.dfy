/** `WatchLog` of munet/watchlog.py, proved against `WatchMachine`. */
module WatchLogs {
  import opened Options
  import opened WatchMachine

  class WatchLog {
    var content: string
    var stat: Option<Stat>
    var lastSnapMark: nat
    var lastUserMark: nat

    ghost function Abs(): Watch
      reads this
    {
      Watch(content, stat, lastSnapMark, lastUserMark)
    }

    /** The file is `f` when the object is made. */
    constructor (f: Option<File>, later: string)
      ensures Abs() == if f.Some? then WatchMachine.Snapshot(EMPTY, true, f, later).w else EMPTY
    {
      content, stat, lastSnapMark, lastUserMark := "", None, 0, 0;
      new;
      if f.Some? {
        var text, raised := Snapshot(true, f, later);
      }
    }

    method StatSnapshot(f: Option<File>) returns (changed: bool)
      modifies this`stat
      ensures stat == if f.Some? then Some(StatOf(f.value)) else None
      ensures changed <==> stat != old(stat)
    {
      var ostat := stat;
      if f.None? {
        stat := None;
        return ostat.Some?;
      }
      var s := StatOf(f.value);
      stat := Some(s);
      if ostat.None? {
        return true;
      }
      changed := || s.mtime != ostat.value.mtime
                 || s.ctime != ostat.value.ctime
                 || s.inode != ostat.value.inode
                 || s.size != ostat.value.size;
    }

    method Reset()
      modifies this
      ensures Abs() == EMPTY
    {
      stat, content, lastUserMark, lastSnapMark := None, "", 0, 0;
    }

    method UpdateContent(f: Option<File>, later: string) returns (text: string, raised: bool)
      modifies this
      ensures var u := WatchMachine.UpdateContent(old(Abs()), f, later);
              Abs() == u.w && text == u.text && raised == u.raised
    {
      var ostat := stat;
      var osize := if ostat.Some? then ostat.value.size else 0;
      var changed := StatSnapshot(f);
      if !changed {
        return "", false;
      }
      if stat.None? {
        return "", true;  // the source asserts that stat is not None
      }
      var nsize := stat.value.size;
      if ostat.Some? && ostat.value.inode != stat.value.inode && content != "" {
        Reset();
        return "", true;  // the source goes on to read the size of None
      }
      if osize > nsize {
        Reset();
        osize := 0;
      }
      if osize == nsize {
        return "", false;
      }
      text := ReadFrom(later, osize, nsize - osize);
      content := content + text;
      raised := false;
    }

    method SetMark() returns (last: nat)
      modifies this`lastUserMark
      ensures last == old(lastUserMark) && lastUserMark == |content|
    {
      last := lastUserMark;
      lastUserMark := |content|;
    }

    method FromMark(mark: Option<int>) returns (text: string)
      ensures text == WatchMachine.FromMark(Abs(), if mark.Some? then mark.value else lastUserMark)
    {
      var m := if mark.Some? then mark.value else lastUserMark;
      var n := |content|;
      text := content[if m < -n then 0 else if m < 0 then n + m else if m > n then n else m..];
    }

    method Snapshot(update: bool, f: Option<File>, later: string) returns (text: string, raised: bool)
      modifies this
      ensures var u := WatchMachine.Snapshot(old(Abs()), update, f, later);
              Abs() == u.w && text == u.text && raised == u.raised
    {
      text, raised := "", false;
      if update {
        text, raised := UpdateContent(f, later);
        if raised {
          return;
        }
      }
      var lastMark := lastSnapMark;
      lastSnapMark := |content|;
      text := FromMark(Some(lastMark));
    }

    method PeekSnapshot(update: bool, f: Option<File>, later: string) returns (text: string, raised: bool)
      modifies this
      ensures var u := WatchMachine.Peek(old(Abs()), update, f, later);
              Abs() == u.w && text == u.text && raised == u.raised
    {
      text, raised := "", false;
      if update {
        text, raised := UpdateContent(f, later);
        if raised {
          return;
        }
      }
      text := FromMark(Some(lastSnapMark));
    }
  }
}
