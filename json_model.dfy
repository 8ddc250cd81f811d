/**
 * The vocabulary the scrubber shares with the JSON library it drives: the
 * tokens the reader (Utf8JsonReader) hands out, what the reader's accessors
 * report about them, and the values the writer (Utf8JsonWriter) is asked to
 * emit. The tokenizer and the serializer themselves are library code and are
 * represented only by these values.
 */
module JsonModel {

  datatype Option<+T> = None | Some(value: T)

  const Int32Min: int := -0x8000_0000
  const Int32Max: int := 0x7FFF_FFFF
  const Int64Max: int := 0x7FFF_FFFF_FFFF_FFFF

  /** A C# `int`. */
  type Int32 = x: int | Int32Min <= x <= Int32Max

  /** The length of a `ReadOnlySpan<byte>`, itself an `int`. */
  type SpanLength = n: nat | n <= Int32Max

  /** The length of a `ReadOnlySequence<byte>`, a `long`. */
  type SequenceLength = n: nat | n <= Int64Max

  /**
   * Where the reader keeps a string token's raw bytes (escapes included):
   * one contiguous span, or a sequence of segments (HasValueSequence).
   * Program.cs builds its reader over a single span, so the reader it runs
   * never reports segments; the `Segments` case models the branch the code
   * keeps for them, with its `checked` cast.
   */
  datatype RawValue =
    | Span(spanLength: SpanLength)
    | Segments(sequenceLength: SequenceLength)
  {
    /** The number of raw input bytes of the token. */
    function Length(): nat {
      match this
      case Span(n) => n
      case Segments(n) => n
    }
  }

  /** What GetString() yields for a property name. */
  datatype NameText =
    | Text(text: string)
    | NullText       // GetString() returned null
    | InvalidUtf8    // GetString() cannot transcode the name

  /** What TryGetInt32 and TryGetDouble report for a number token. */
  datatype NumberValue =
    | Int32Value(v: Int32)   // TryGetInt32 succeeds with v
    | DoubleValue            // only TryGetDouble succeeds
    | NotConvertible         // neither succeeds

  /** One token handed out by Read(). `Other` is any token kind the scrubber does not list. */
  datatype Token =
    | StartObject | EndObject | StartArray | EndArray
    | PropertyName(name: NameText)
    | String(raw: RawValue)
    | Number(number: NumberValue)
    | True | False | Null
    | Other

  /** How the reader ends: Read() returns false, or it throws a JsonException. */
  datatype ReaderEnd = EndOfInput | Malformed

  /** Everything the reader does on one input buffer: the tokens it yields, then how it stops. */
  datatype TokenStream = TokenStream(tokens: seq<Token>, end: ReaderEnd)

  /**
   * One call made on the writer. A floating-point value is recorded without
   * its value.
   */
  datatype Written =
    | WStartObject | WEndObject | WStartArray | WEndArray
    | WPropertyName(name: string)
    | WString(s: string)
    | WInt(n: int)
    | WDouble
    | WBool(b: bool)
    | WNull
}
