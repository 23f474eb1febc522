/**
 * The narration database: an authored list of lines, looked up by key with an
 * ordinal (exact) string comparison.
 */
module Narration {
  import opened Grid

  /** A line of narration; a `None` key or text is a null string, a `None` voice no clip. */
  datatype NarrationLine = NarrationLine(
    key: Option<string>,
    text: Option<string>,
    voice: Option<int>,
    overrideDuration: bool,
    durationSeconds: real)

  /** The default value of the line struct: null strings, no clip, no override, zero seconds. */
  const DefaultLine := NarrationLine(None, None, None, false, 0.0)

  /** Some line at or after `from` has exactly this key. */
  predicate HasKeyFrom(lines: seq<NarrationLine>, key: Option<string>, from: nat)
  {
    exists i :: from <= i < |lines| && lines[i].key == key
  }

  /** The position of the first line at or after `from` with this key, or -1. */
  function FirstWithKey(lines: seq<NarrationLine>, key: Option<string>, from: nat): (r: int)
    requires from <= |lines|
    ensures r == -1 || from <= r < |lines|
    ensures r >= 0 ==> lines[r].key == key && forall j :: from <= j < r ==> lines[j].key != key
    ensures r == -1 <==> !HasKeyFrom(lines, key, from)
    decreases |lines| - from
  {
    if from == |lines| then -1
    else if lines[from].key == key then from
    else FirstWithKey(lines, key, from + 1)
  }

  /** What a lookup yields: whether the key was found and the line handed out. */
  function Lookup(lines: seq<NarrationLine>, key: Option<string>): (bool, NarrationLine)
  {
    var i := FirstWithKey(lines, key, 0);
    if i >= 0 then (true, lines[i]) else (false, DefaultLine)
  }

  /** The asset: its authored lines. */
  class NarrationDatabase {
    var lines: seq<NarrationLine>

    constructor (lines: seq<NarrationLine>)
      ensures this.lines == lines
    {
      this.lines := lines;
    }

    /**
     * The lookup: it reports whether some line has exactly `key`, hands out
     * the first such line, and the default line when there is none. The list
     * is left as it is.
     */
    method TryGet(key: Option<string>) returns (found: bool, line: NarrationLine)
      ensures found <==> HasKeyFrom(lines, key, 0)
      ensures found ==> exists i ::
        && 0 <= i < |lines| && line == lines[i] && line.key == key
        && forall j :: 0 <= j < i ==> lines[j].key != key
      ensures !found ==> line == DefaultLine
      ensures (found, line) == Lookup(lines, key)
    {
      var i := 0;
      while i < |lines|
        invariant 0 <= i <= |lines|
        invariant FirstWithKey(lines, key, 0) == FirstWithKey(lines, key, i)
      {
        if lines[i].key == key {
          return true, lines[i];
        }
        i := i + 1;
      }
      return false, DefaultLine;
    }
  }
}
