/**
 * The read loop of Program.cs as it runs: a reader that is advanced token by
 * token, a writer that appends to an in-memory buffer, and a flush to the
 * output file that happens only once the whole input has been read. It is
 * proved to compute Scrubber.Run.
 */
module ScrubLoop {
  import opened JsonModel
  import opened SharedRandom
  import opened Scrubber
  import opened OutputFiles

  /** What one call of Read() does: yields a token, reports the end, or throws a JsonException. */
  datatype ReadResult = TokenRead(token: Token) | NoMoreTokens | ReadThrew

  /** A Utf8JsonReader over one input buffer, which the tokenizer turns into `stream`. */
  class JsonReader {
    const stream: TokenStream
    var consumed: nat

    ghost predicate Valid()
      reads this
    {
      consumed <= |stream.tokens|
    }

    constructor (stream: TokenStream)
      ensures Valid() && this.stream == stream && consumed == 0
    {
      this.stream := stream;
      consumed := 0;
    }

    method Read() returns (r: ReadResult)
      requires Valid()
      modifies this
      ensures Valid()
      ensures old(consumed) < |stream.tokens| ==>
        r == TokenRead(stream.tokens[old(consumed)]) && consumed == old(consumed) + 1
      ensures old(consumed) == |stream.tokens| ==>
        consumed == old(consumed) && r == (if stream.end == EndOfInput then NoMoreTokens else ReadThrew)
    {
      if consumed < |stream.tokens| {
        r := TokenRead(stream.tokens[consumed]);
        consumed := consumed + 1;
      } else if stream.end == EndOfInput {
        r := NoMoreTokens;
      } else {
        r := ReadThrew;
      }
    }
  }

  /** A Utf8JsonWriter together with the MemoryStream it writes into. */
  class BufferedWriter {
    var buffered: seq<Written>

    constructor ()
      ensures buffered == []
    {
      buffered := [];
    }

    method Write(w: Written)
      modifies this
      ensures buffered == old(buffered) + [w]
    {
      buffered := buffered + [w];
    }
  }

  lemma ScrubTokensAt(ts: seq<Token>, i: nat, rng: Rng, k: nat)
    requires rng.Valid() && i < |ts|
    ensures ScrubTokens(ts[i..], rng, k) ==
      match Handle(ts[i], rng, k)
      case Throw(f) => Err(f)
      case Emit(out, next) => Prepend(Emitted(out), ScrubTokens(ts[i + 1..], rng, next))
  {
    assert ts[i..][0] == ts[i];
    assert ts[i..][1..] == ts[i + 1..];
  }

  lemma PrependTwice(a: seq<Written>, b: seq<Written>, r: Result<seq<Written>>)
    ensures Prepend(a, Prepend(b, r)) == Prepend(a + b, r)
  {
    if r.Ok? {
      assert a + (b + r.value) == (a + b) + r.value;
    }
  }

  /**
   * The body of the `try` block: the `switch` on the kind of the token just
   * read, with the generator at call number `drawn`. It either throws, or
   * names the value to write (if any) and the generator's next call number.
   */
  method HandleToken(t: Token, rng: Rng, drawn: nat) returns (step: Step)
    requires rng.Valid()
    ensures step == Handle(t, rng, drawn)
  {
    var written: Option<Written> := None;
    var next := drawn;
    match t {
      case PropertyName(name) =>
        match name {
          case Text(s) => written := Some(WPropertyName(s));
          case NullText => written := Some(WPropertyName(NullNameReplacement));
          case InvalidUtf8 => return Throw(InvalidOperation);
        }
      case String(raw) =>
        if raw.Segments? && raw.sequenceLength > Int32Max {
          return Throw(Overflow);
        }
        var valueLength := raw.Length();
        var replacement := Replacement(valueLength, rng, drawn);
        next := drawn + valueLength;
        written := Some(WString(replacement));
      case Number(number) =>
        match number {
          case Int32Value(v) =>
            if v < 0 {
              return Throw(ArgumentOutOfRange);
            }
            written := Some(WInt(rng.Next(drawn, v)));
            next := drawn + 1;
          case DoubleValue =>
            written := Some(WDouble);
            next := drawn + 1;
          case NotConvertible =>
        }
      case StartObject => written := Some(WStartObject);
      case EndObject => written := Some(WEndObject);
      case StartArray => written := Some(WStartArray);
      case EndArray => written := Some(WEndArray);
      case True => written := Some(WBool(true));
      case False => written := Some(WBool(false));
      case Null => written := Some(WNull);
      case Other =>
    }
    step := Emit(written, next);
  }

  /**
   * The scrub proper (Program.cs:30-107): on an input of `bytesRead` bytes,
   * read every token, handle it, and stop at the first exception. The
   * writer's buffer is what a successful run has to flush.
   */
  method ScrubToBuffer(bytesRead: nat, stream: TokenStream, rng: Rng) returns (outcome: Outcome)
    requires rng.Valid()
    ensures outcome == Run(bytesRead, stream, rng)
  {
    if bytesRead == 0 {
      return NotScrubbed;
    }
    var reader := new JsonReader(stream);
    var writer := new BufferedWriter();
    var drawn: nat := 0;
    assert stream.tokens[0..] == stream.tokens;
    assert Prepend([], ScrubTokens(stream.tokens, rng, 0)) == ScrubTokens(stream.tokens, rng, 0) by {
      if ScrubTokens(stream.tokens, rng, 0).Ok? {
        assert [] + ScrubTokens(stream.tokens, rng, 0).value == ScrubTokens(stream.tokens, rng, 0).value;
      }
    }
    while true
      invariant reader.Valid() && reader.stream == stream
      invariant ScrubTokens(stream.tokens, rng, 0) ==
        Prepend(writer.buffered, ScrubTokens(stream.tokens[reader.consumed..], rng, drawn))
      decreases |stream.tokens| - reader.consumed
    {
      ghost var before, i, k := writer.buffered, reader.consumed, drawn;
      var read := reader.Read();
      match read
      case NoMoreTokens =>
        break;
      case ReadThrew =>
        return Aborted(JsonException);
      case TokenRead(t) =>
        ScrubTokensAt(stream.tokens, i, rng, k);
        var step := HandleToken(t, rng, drawn);
        match step
        case Throw(f) =>
          return Aborted(f);
        case Emit(written, next) =>
          if written.Some? {
            writer.Write(written.value);
          }
          drawn := next;
          assert writer.buffered == before + Emitted(written);
          PrependTwice(before, Emitted(written), ScrubTokens(stream.tokens[i + 1..], rng, drawn));
    }
    assert stream.tokens[reader.consumed..] == [];
    outcome := Scrubbed(writer.buffered);
  }

  /**
   * One run of the program as written: the output file is opened with
   * FileMode.OpenOrCreate before the input is scrubbed, and only a run that
   * scrubs the whole input writes its buffer, from the file's start and
   * without truncating it.
   */
  method ScrubFile(bytesRead: nat, stream: TokenStream, rng: Rng, output: OutputFile<Written>)
    returns (outcome: Outcome)
    requires rng.Valid()
    modifies output
    ensures outcome == Run(bytesRead, stream, rng)
    ensures output.present
    ensures output.contents ==
      if outcome.Scrubbed? then WrittenOver(old(output.Opened()), outcome.out) else old(output.Opened())
  {
    output.OpenOrCreate();
    outcome := ScrubToBuffer(bytesRead, stream, rng);
    if outcome.Scrubbed? {
      output.WriteFromStart(outcome.out);
    }
  }

  /**
   * A run with the output truncated just before the buffer is written: a
   * successful run leaves exactly the scrubbed output in the file, any other
   * run leaves the file as it was opened.
   */
  method ScrubFileTruncating(bytesRead: nat, stream: TokenStream, rng: Rng, output: OutputFile<Written>)
    returns (outcome: Outcome)
    requires rng.Valid()
    modifies output
    ensures outcome == Run(bytesRead, stream, rng)
    ensures output.present
    ensures output.contents == if outcome.Scrubbed? then outcome.out else old(output.Opened())
  {
    output.OpenOrCreate();
    outcome := ScrubToBuffer(bytesRead, stream, rng);
    if outcome.Scrubbed? {
      output.TruncateAndWrite(outcome.out);
    }
  }
}
