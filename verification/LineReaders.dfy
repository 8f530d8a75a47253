/** The file object that `readline` of munet/testing/util.py takes over, proved against
    `LineMachine`. */
module LineReaders {
  import opened Options
  import opened LineMachine

  class LineReader {
    var lines: seq<string>
    var buf: string

    ghost function Abs(): Reader
      reads this
    {
      Reader(lines, buf)
    }

    constructor ()
      ensures Abs() == Reader([], "")
    {
      lines, buf := [], "";
    }

    /** Moves the complete lines of the buffer to the queue. */
    method SplitLines()
      modifies this
      ensures Abs() == Reader(old(lines) + Lines(old(buf)).lines, Lines(old(buf)).buf)
    {
      while '\n' in buf
        invariant Reader(lines + Lines(buf).lines, Lines(buf).buf)
               == Reader(old(lines) + Lines(old(buf)).lines, Lines(old(buf)).buf)
        decreases |buf|
      {
        var n := 0;
        while buf[n] != '\n'
          invariant n <= Newline(buf) < |buf|
          decreases |buf| - n
        {
          n := n + 1;
        }
        ghost var rest := Lines(buf[n + 1..]);
        assert buf[..n] + "\n" == buf[..n + 1];
        assert lines + ([buf[..n + 1]] + rest.lines) == lines + [buf[..n] + "\n"] + rest.lines;
        lines := lines + [buf[..n] + "\n"];
        buf := buf[n + 1..];
      }
      assert Newline(buf) == |buf|;
      assert lines + [] == lines;
    }

    method ReadLine(inputs: seq<Input>) returns (result: Option<string>, used: nat)
      modifies this
      ensures Call(result, used, Abs()) == LineMachine.ReadLine(old(Abs()), inputs)
    {
      used := 0;
      if lines != [] {
        result := Some(lines[0]);
        lines := lines[1..];
        return;
      }
      while used < |inputs|
        invariant 0 <= used <= |inputs|
        invariant lines == []
        invariant var c := LineMachine.ReadLine(Abs(), inputs[used..]);
                  c.(used := c.used + used) == LineMachine.ReadLine(old(Abs()), inputs)
      {
        var input := inputs[used];
        assert inputs[used..][1..] == inputs[used + 1..];
        used := used + 1;
        if input.GiveUp? {
          return None, used;
        }
        if input.text == "" {
          result := Some(buf);
          buf := "";
          return;
        }
        buf := buf + input.text;
        ghost var found := Lines(buf);
        SplitLines();
        assert Abs() == found by {
          assert [] + found.lines == found.lines;
        }
        if lines != [] {
          result := Some(lines[0]);
          lines := lines[1..];
          return;
        }
      }
      result := None;
    }
  }
}
