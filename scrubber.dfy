/**
 * The scrub of Program.cs as functions: what one token becomes (the `switch`
 * in the read loop), what a whole token stream becomes, and what a run of the
 * program leaves behind. The loop that executes this is ScrubLoop.ScrubToBuffer.
 */
module Scrubber {
  import opened JsonModel
  import opened SharedRandom

  /** The letters a replacement string is built from. */
  const Alphabet: string := "abcdefghijklmnopqrstuvwxyzABCDEFGHIJKLMNOPQRSTUVWXYZ"

  /** The name written for a property whose name reads as null. */
  const NullNameReplacement: string := "NN"

  predicate IsLetter(c: char) {
    'a' <= c <= 'z' || 'A' <= c <= 'Z'
  }

  lemma LowerCaseRun(c: char)
    ensures c in "abcdefghijklmnopqrstuvwxyz" <==> 'a' <= c <= 'z'
  {
  }

  lemma UpperCaseRun(c: char)
    ensures c in "ABCDEFGHIJKLMNOPQRSTUVWXYZ" <==> 'A' <= c <= 'Z'
  {
  }

  /** The alphabet is exactly the 52 ASCII letters. */
  lemma AlphabetIsLetters(c: char)
    ensures |Alphabet| == 52
    ensures c in Alphabet <==> IsLetter(c)
  {
    assert Alphabet == "abcdefghijklmnopqrstuvwxyz" + "ABCDEFGHIJKLMNOPQRSTUVWXYZ";
    LowerCaseRun(c);
    UpperCaseRun(c);
  }

  /**
   * The exceptions a token can raise while it is handled, and the one the
   * reader raises on malformed input.
   */
  datatype Failure =
    | JsonException       // Read() on malformed input; not caught
    | InvalidOperation    // GetString() on a name it cannot transcode; caught, reported, run ends
    | Overflow            // checked cast of a multi-segment length; not caught
    | ArgumentOutOfRange  // Random.Next with a negative bound; not caught

  datatype Result<+T> = Ok(value: T) | Err(failure: Failure)

  /**
   * The replacement for a string value of `length` raw bytes: `length`
   * letters, the i-th picked by the (k+i)-th call Next(52).
   */
  function Replacement(length: nat, rng: Rng, k: nat): (s: string)
    requires rng.Valid()
    ensures |s| == length
    ensures forall i :: 0 <= i < |s| ==> IsLetter(s[i])
  {
    var s := seq(length, i requires 0 <= i < length => Alphabet[rng.Next(k + i, |Alphabet|)]);
    assert forall i :: 0 <= i < |s| ==> IsLetter(s[i]) by {
      forall i | 0 <= i < |s| ensures IsLetter(s[i]) {
        var n := rng.Next(k + i, |Alphabet|);
        assert s[i] == Alphabet[n] && n < |Alphabet|;
        AlphabetIsLetters(s[i]);
      }
    }
    s
  }

  /**
   * What handling one token does: it throws, or it writes at most one value
   * and leaves the generator at call number `next`.
   */
  datatype Step = Throw(failure: Failure) | Emit(out: Option<Written>, next: nat)

  /** The exception a token raises when handled, whatever the generator answers. */
  function Fault(t: Token): Option<Failure> {
    match t
    case PropertyName(InvalidUtf8) => Some(InvalidOperation)
    case String(Segments(n)) => if n > Int32Max then Some(Overflow) else None
    case Number(Int32Value(v)) => if v < 0 then Some(ArgumentOutOfRange) else None
    case _ => None
  }

  /** Whether handling a token writes anything: all kinds but `Other` and an unconvertible number. */
  predicate Writes(t: Token) {
    !t.Other? && t != Number(NotConvertible)
  }

  /**
   * What a written value may be for a given input token: structure, names,
   * booleans and null identical; a string of the same raw length made of
   * letters; an int below a positive original (0 for 0); some float for a
   * float.
   */
  predicate Corresponds(t: Token, w: Written) {
    match t
    case StartObject => w == WStartObject
    case EndObject => w == WEndObject
    case StartArray => w == WStartArray
    case EndArray => w == WEndArray
    case PropertyName(name) =>
      (name.Text? && w == WPropertyName(name.text)) ||
      (name.NullText? && w == WPropertyName(NullNameReplacement))
    case String(raw) =>
      w.WString? && |w.s| == raw.Length() && forall i :: 0 <= i < |w.s| ==> IsLetter(w.s[i])
    case Number(number) =>
      (number.Int32Value? && w.WInt? && 0 <= w.n && (w.n < number.v || w.n == number.v == 0)) ||
      (number.DoubleValue? && w == WDouble)
    case True => w == WBool(true)
    case False => w == WBool(false)
    case Null => w == WNull
    case Other => false
  }

  /** One pass of the `switch` of the read loop, with the generator at call number k. */
  function Handle(t: Token, rng: Rng, k: nat): (step: Step)
    requires rng.Valid()
    ensures step.Throw? <==> Fault(t).Some?
    ensures step.Throw? ==> Fault(t) == Some(step.failure)
    ensures step.Emit? ==> k <= step.next
    ensures step.Emit? ==> (step.out.Some? <==> Writes(t))
    ensures step.Emit? && step.out.Some? ==> Corresponds(t, step.out.value)
  {
    match t
    case PropertyName(name) =>
      (match name
       case Text(s) => Emit(Some(WPropertyName(s)), k)
       case NullText => Emit(Some(WPropertyName(NullNameReplacement)), k)
       case InvalidUtf8 => Throw(InvalidOperation))
    case String(raw) =>
      if raw.Segments? && raw.sequenceLength > Int32Max then Throw(Overflow)
      else Emit(Some(WString(Replacement(raw.Length(), rng, k))), k + raw.Length())
    case Number(number) =>
      (match number
       case Int32Value(v) =>
         if v < 0 then Throw(ArgumentOutOfRange) else Emit(Some(WInt(rng.Next(k, v))), k + 1)
       case DoubleValue => Emit(Some(WDouble), k + 1)
       case NotConvertible => Emit(None, k))
    case StartObject => Emit(Some(WStartObject), k)
    case EndObject => Emit(Some(WEndObject), k)
    case StartArray => Emit(Some(WStartArray), k)
    case EndArray => Emit(Some(WEndArray), k)
    case True => Emit(Some(WBool(true)), k)
    case False => Emit(Some(WBool(false)), k)
    case Null => Emit(Some(WNull), k)
    case Other => Emit(None, k)
  }

  function Emitted(out: Option<Written>): seq<Written> {
    if out.Some? then [out.value] else []
  }

  /** Output written before a later result: kept on success, dropped on failure. */
  function Prepend(written: seq<Written>, rest: Result<seq<Written>>): Result<seq<Written>> {
    match rest
    case Ok(more) => Ok(written + more)
    case Err(f) => Err(f)
  }

  /** The writer's whole output for a token sequence, or the first exception, with the generator at call k. */
  function ScrubTokens(ts: seq<Token>, rng: Rng, k: nat): Result<seq<Written>>
    requires rng.Valid()
    decreases |ts|
  {
    if ts == [] then Ok([])
    else
      match Handle(ts[0], rng, k)
      case Throw(f) => Err(f)
      case Emit(out, next) => Prepend(Emitted(out), ScrubTokens(ts[1..], rng, next))
  }

  /**
   * What a run leaves behind. `NotScrubbed`: the input was empty; `Aborted`:
   * an exception ended the run before the buffered output was flushed;
   * `Scrubbed`: the output file receives `out`.
   */
  datatype Outcome = NotScrubbed | Aborted(failure: Failure) | Scrubbed(out: seq<Written>)

  /** A run on an input of `bytesRead` bytes that the reader turns into `stream`. */
  function Run(bytesRead: nat, stream: TokenStream, rng: Rng): Outcome
    requires rng.Valid()
  {
    if bytesRead == 0 then NotScrubbed
    else
      match ScrubTokens(stream.tokens, rng, 0)
      case Err(f) => Aborted(f)
      case Ok(out) => if stream.end == Malformed then Aborted(JsonException) else Scrubbed(out)
  }
}
