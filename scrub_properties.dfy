/**
 * What the scrub guarantees about its output, stated against the token
 * stream it reads: the output has the shape of the input, only string and
 * integer contents differ, and any exception leaves nothing behind.
 */
module ScrubProperties {
  import opened JsonModel
  import opened SharedRandom
  import opened Scrubber

  /** The input tokens that write a value, in input order. */
  function Writing(ts: seq<Token>): (w: seq<Token>)
    ensures |w| <= |ts|
    ensures forall t :: t in w <==> t in ts && Writes(t)
    decreases |ts|
  {
    if ts == [] then []
    else
      var rest := Writing(ts[1..]);
      assert forall t :: t in ts <==> t == ts[0] || t in ts[1..];
      if Writes(ts[0]) then [ts[0]] + rest else rest
  }

  /** `out` has one value per token of `src`, each corresponding to its token. */
  predicate Conforms(src: seq<Token>, out: seq<Written>) {
    |src| == |out| && forall i :: 0 <= i < |out| ==> Corresponds(src[i], out[i])
  }

  predicate NoFault(ts: seq<Token>) {
    forall i :: 0 <= i < |ts| ==> Fault(ts[i]).None?
  }

  /** Token i is the first token of `ts` that raises an exception, and it raises f. */
  predicate FirstFault(ts: seq<Token>, i: int, f: Failure) {
    0 <= i < |ts| && Fault(ts[i]) == Some(f) && forall j :: 0 <= j < i ==> Fault(ts[j]).None?
  }

  lemma FirstFaultUnique(ts: seq<Token>, i: int, f: Failure, j: int, g: Failure)
    requires FirstFault(ts, i, f) && FirstFault(ts, j, g)
    ensures i == j && f == g
  {
  }

  /**
   * The scrub of a token sequence succeeds exactly when no token faults; it
   * then writes one corresponding value per writing token, in order, and
   * otherwise fails with the exception of the first faulty token.
   */
  lemma {:induction false} ScrubTokensShape(ts: seq<Token>, rng: Rng, k: nat)
    requires rng.Valid()
    ensures ScrubTokens(ts, rng, k).Ok? <==> NoFault(ts)
    ensures ScrubTokens(ts, rng, k).Ok? ==> Conforms(Writing(ts), ScrubTokens(ts, rng, k).value)
    ensures ScrubTokens(ts, rng, k).Err? ==> exists i :: FirstFault(ts, i, ScrubTokens(ts, rng, k).failure)
    decreases |ts|
  {
    if ts == [] {
      return;
    }
    match Handle(ts[0], rng, k)
    case Throw(f) =>
      assert FirstFault(ts, 0, f);
    case Emit(out, next) =>
      var tail := ts[1..];
      ScrubTokensShape(tail, rng, next);
      assert NoFault(ts) <==> Fault(ts[0]).None? && NoFault(tail) by {
        assert forall i :: 0 < i < |ts| ==> ts[i] == tail[i - 1];
      }
      match ScrubTokens(tail, rng, next)
      case Ok(more) =>
        var head := Emitted(out);
        assert Writing(ts) == (if Writes(ts[0]) then [ts[0]] else []) + Writing(tail);
        assert ScrubTokens(ts, rng, k) == Ok(head + more);
        assert Conforms(Writing(ts), head + more) by {
          if Writes(ts[0]) {
            forall i | 0 < i < |head + more|
              ensures Corresponds(Writing(ts)[i], (head + more)[i])
            {
              assert Writing(ts)[i] == Writing(tail)[i - 1];
            }
          }
        }
      case Err(f) =>
        var i :| FirstFault(tail, i, f);
        assert FirstFault(ts, i + 1, f) by {
          assert ts[i + 1] == tail[i];
          forall j | 0 <= j < i + 1 ensures Fault(ts[j]).None? {
            if j > 0 { assert ts[j] == tail[j - 1]; }
          }
        }
  }

  /** A written value with the contents of strings and integers blanked out. */
  function Erase(w: Written): Written {
    match w
    case WString(_) => WString("")
    case WInt(_) => WInt(0)
    case _ => w
  }

  lemma CorrespondingValuesAgree(t: Token, w1: Written, w2: Written)
    requires Corresponds(t, w1) && Corresponds(t, w2)
    ensures Erase(w1) == Erase(w2)
  {
  }

  /**
   * The generator decides only contents: with any two generators the scrub
   * of the same tokens succeeds or fails alike, with the same exception, and
   * its outputs agree once string and integer contents are blanked out.
   */
  lemma {:induction false} ScrubStructureIgnoresRandomness(ts: seq<Token>, rng1: Rng, k1: nat, rng2: Rng, k2: nat)
    requires rng1.Valid() && rng2.Valid()
    ensures ScrubTokens(ts, rng1, k1).Ok? <==> ScrubTokens(ts, rng2, k2).Ok?
    ensures ScrubTokens(ts, rng1, k1).Err? && ScrubTokens(ts, rng2, k2).Err? ==>
      ScrubTokens(ts, rng1, k1).failure == ScrubTokens(ts, rng2, k2).failure
    ensures ScrubTokens(ts, rng1, k1).Ok? && ScrubTokens(ts, rng2, k2).Ok? ==>
      var out1, out2 := ScrubTokens(ts, rng1, k1).value, ScrubTokens(ts, rng2, k2).value;
      |out1| == |out2| && forall i :: 0 <= i < |out1| ==> Erase(out1[i]) == Erase(out2[i])
  {
    ScrubTokensShape(ts, rng1, k1);
    ScrubTokensShape(ts, rng2, k2);
    var r1, r2 := ScrubTokens(ts, rng1, k1), ScrubTokens(ts, rng2, k2);
    if r1.Err? && r2.Err? {
      var i :| FirstFault(ts, i, r1.failure);
      var j :| FirstFault(ts, j, r2.failure);
      FirstFaultUnique(ts, i, r1.failure, j, r2.failure);
    }
    if r1.Ok? && r2.Ok? {
      var src := Writing(ts);
      forall i | 0 <= i < |r1.value| ensures Erase(r1.value[i]) == Erase(r2.value[i]) {
        CorrespondingValuesAgree(src[i], r1.value[i], r2.value[i]);
      }
    }
  }

  /**
   * A run writes its output only when the input is non-empty, every token is
   * handled without an exception and the reader reaches the end without one;
   * the output then conforms to the input. In every other case nothing is
   * written, and an abort names the exception that caused it.
   */
  lemma RunOutcome(bytesRead: nat, stream: TokenStream, rng: Rng)
    requires rng.Valid()
    ensures Run(bytesRead, stream, rng).NotScrubbed? <==> bytesRead == 0
    ensures Run(bytesRead, stream, rng).Scrubbed? <==>
      bytesRead > 0 && NoFault(stream.tokens) && stream.end == EndOfInput
    ensures Run(bytesRead, stream, rng).Scrubbed? ==>
      Conforms(Writing(stream.tokens), Run(bytesRead, stream, rng).out)
    ensures Run(bytesRead, stream, rng).Aborted? ==>
      var f := Run(bytesRead, stream, rng).failure;
      (exists i :: FirstFault(stream.tokens, i, f)) ||
      (NoFault(stream.tokens) && stream.end == Malformed && f == JsonException)
  {
    ScrubTokensShape(stream.tokens, rng, 0);
  }

  /** Every string of letters is the replacement some generator produces. */
  lemma EveryLetterStringIsPossible(s: string, k: nat)
    requires forall i :: 0 <= i < |s| ==> IsLetter(s[i])
    ensures exists rng: Rng :: rng.Valid() && Replacement(|s|, rng, k) == s
  {
    forall i | 0 <= i < |s| ensures s[i] in Alphabet {
      AlphabetIsLetters(s[i]);
    }
    var rng := Rng((j: nat, bound: nat) =>
      if bound == |Alphabet| && k <= j < k + |s| then
        var n :| 0 <= n < |Alphabet| && Alphabet[n] == s[j - k]; n
      else 0);
    assert rng.Valid();
    var r := Replacement(|s|, rng, k);
    forall i | 0 <= i < |s| ensures r[i] == s[i] {
      assert rng.Next(k + i, |Alphabet|) == rng.draw(k + i, |Alphabet|);
    }
    assert r == s;
  }

  /**
   * Conversely, every value that corresponds to a token that does not fault
   * is one that some generator makes the scrub write: any letter string of
   * the right length, any integer in range.
   */
  lemma EveryCorrespondingValueIsPossible(t: Token, w: Written, k: nat)
    requires Fault(t).None? && Corresponds(t, w)
    ensures exists rng: Rng :: rng.Valid() && Handle(t, rng, k).Emit? && Handle(t, rng, k).out == Some(w)
  {
    if t.String? {
      EveryLetterStringIsPossible(w.s, k);
      var rng: Rng :| rng.Valid() && Replacement(|w.s|, rng, k) == w.s;
      assert Handle(t, rng, k).out == Some(w);
    } else if t.Number? && t.number.Int32Value? {
      var rng := Rng((j: nat, bound: nat) => if 0 <= w.n < bound then w.n else 0);
      assert rng.Valid();
      assert Handle(t, rng, k).out == Some(w);
    } else {
      var rng := Rng((j: nat, bound: nat) => 0);
      assert rng.Valid();
      assert Handle(t, rng, k).Emit? && Handle(t, rng, k).out == Some(w);
    }
  }

  /** The property names of a token sequence, as the scrub writes them. */
  function InputNames(ts: seq<Token>): seq<string>
    decreases |ts|
  {
    if ts == [] then []
    else
      match ts[0]
      case PropertyName(Text(s)) => [s] + InputNames(ts[1..])
      case PropertyName(NullText) => [NullNameReplacement] + InputNames(ts[1..])
      case _ => InputNames(ts[1..])
  }

  /** The property names in written output. */
  function OutputNames(out: seq<Written>): seq<string>
    decreases |out|
  {
    if out == [] then []
    else if out[0].WPropertyName? then [out[0].name] + OutputNames(out[1..])
    else OutputNames(out[1..])
  }

  lemma {:induction false} ConformingNames(src: seq<Token>, out: seq<Written>)
    requires Conforms(src, out)
    ensures OutputNames(out) == InputNames(src)
    decreases |src|
  {
    if src != [] {
      assert Corresponds(src[0], out[0]);
      ConformingNames(src[1..], out[1..]);
    }
  }

  lemma {:induction false} WritingKeepsNames(ts: seq<Token>)
    ensures InputNames(Writing(ts)) == InputNames(ts)
    decreases |ts|
  {
    if ts != [] {
      WritingKeepsNames(ts[1..]);
      if Writes(ts[0]) {
        assert ([ts[0]] + Writing(ts[1..]))[1..] == Writing(ts[1..]);
      }
    }
  }

  /** Every object of a scrubbed document keeps its property names, in order. */
  lemma ScrubKeepsPropertyNames(bytesRead: nat, stream: TokenStream, rng: Rng)
    requires rng.Valid()
    ensures Run(bytesRead, stream, rng).Scrubbed? ==>
      OutputNames(Run(bytesRead, stream, rng).out) == InputNames(stream.tokens)
  {
    RunOutcome(bytesRead, stream, rng);
    if Run(bytesRead, stream, rng).Scrubbed? {
      ConformingNames(Writing(stream.tokens), Run(bytesRead, stream, rng).out);
      WritingKeepsNames(stream.tokens);
    }
  }
}
