/** Reading lines from a stream that comes in pieces: what `readline` in munet/testing/util.py
    does to the lines and the text it keeps on the file object. */
module LineMachine {
  import opened Options

  /** What one turn of the loop meets: the text of a read, empty at the end of the file, or one of
      the ways a call gives up: the time is over, nothing is ready in time, the read returns None. */
  datatype Input = Read(text: string) | GiveUp

  /** The reader between calls: lines found but not returned, and the text after them. */
  datatype Reader = Reader(lines: seq<string>, buf: string)

  /** The position of the first newline, or the length. */
  function Newline(s: string): (n: nat)
    ensures n <= |s|
    ensures forall i :: 0 <= i < n ==> s[i] != '\n'
    ensures n < |s| ==> s[n] == '\n'
  {
    if s == [] || s[0] == '\n' then 0 else 1 + Newline(s[1..])
  }

  /** The complete lines of a text, each with its newline, and what comes after the last. */
  function Lines(s: string): Reader
    decreases |s|
  {
    var n := Newline(s);
    if n == |s| then
      Reader([], s)
    else
      var rest := Lines(s[n + 1..]);
      Reader([s[..n + 1]] + rest.lines, rest.buf)
  }

  /** What a call returned, how many inputs it used, and the reader it left. */
  datatype Call = Call(result: Option<string>, used: nat, reader: Reader)

  /** One call of `readline` on the inputs to come; it gives up when there are none. */
  function ReadLine(r: Reader, inputs: seq<Input>): (c: Call)
    ensures c.used <= |inputs|
    decreases |inputs|
  {
    if r.lines != [] then
      Call(Some(r.lines[0]), 0, r.(lines := r.lines[1..]))
    else if inputs == [] then
      Call(None, 0, r)
    else if inputs[0].GiveUp? then
      Call(None, 1, r)
    else if inputs[0].text == "" then
      Call(Some(r.buf), 1, Reader([], ""))
    else
      var c := ReadLine(Lines(r.buf + inputs[0].text), inputs[1..]);
      c.(used := c.used + 1)
  }
}
