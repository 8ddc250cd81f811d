/**
 * The output file the scrubbed text is written to. Program.cs opens it with
 * FileMode.OpenOrCreate before the input is even read: a missing file is
 * created empty, an existing one keeps its bytes. After a successful scrub
 * the buffered output is written from the file's start without truncating
 * it, so bytes of an older, longer file survive after the new text.
 * `WrittenOver` and `OutputFile.WriteFromStart` are that behaviour;
 * `OutputFile.TruncateAndWrite` (setting the length to 0 before writing) is
 * what a scrub evidently means to do.
 */
module OutputFiles {

  /** The contents of a file holding `existing` after `data` is written from its start without truncation. */
  function WrittenOver<T>(existing: seq<T>, data: seq<T>): (r: seq<T>)
    ensures |r| == if |existing| > |data| then |existing| else |data|
    ensures r[..|data|] == data
    ensures |existing| > |data| ==> r[|data|..] == existing[|data|..]
  {
    if |existing| > |data| then data + existing[|data|..] else data
  }

  /** An existing three-unit file that receives one unit keeps its last two units. */
  lemma StaleTailSurvives()
    ensures WrittenOver([1, 2, 3], [9]) == [9, 2, 3]
    ensures WrittenOver([1, 2, 3], [9]) != [9]
  {
    assert [1, 2, 3][1..] == [2, 3];
  }

  /** A file on disk: whether it exists and, if it does, what it holds. */
  class OutputFile<T> {
    var present: bool
    var contents: seq<T>

    constructor (present: bool, contents: seq<T>)
      ensures this.present == present && this.contents == contents
    {
      this.present := present;
      this.contents := contents;
    }

    /** The contents the file has once it is open: its old contents, or nothing if it was missing. */
    function Opened(): seq<T>
      reads this
    {
      if present then contents else []
    }

    /** FileMode.OpenOrCreate: a missing file is created empty, an existing one is left as it is. */
    method OpenOrCreate()
      modifies this
      ensures present
      ensures contents == old(Opened())
    {
      if !present {
        present, contents := true, [];
      }
    }

    /** Writing from the start of the open file without truncating it (MemoryStream.WriteTo). */
    method WriteFromStart(data: seq<T>)
      requires present
      modifies this
      ensures present
      ensures contents == WrittenOver(old(contents), data)
      ensures |old(contents)| > |data| ==> contents != data
    {
      contents := WrittenOver(contents, data);
    }

    /** Setting the open file's length to 0 and then writing: the file holds exactly `data`. */
    method TruncateAndWrite(data: seq<T>)
      requires present
      modifies this
      ensures present
      ensures contents == data
    {
      contents := data;
    }
  }
}
