/** Aliases drawn by rejection sampling: six bits at a time from 63-bit random words. */
module AliasGen {

  const LOWER: string := "abcdefghijklmnopqrstuvwxyz"
  const UPPER: string := "ABCDEFGHIJKLMNOPQRSTUVWXYZ"
  const DIGITS: string := "0123456789"
  const LETTER_COUNT: nat := 62
  const CHUNKS_PER_WORD: nat := 10

  /** The letter with this index. */
  function Letter(i: nat): char
    requires i < LETTER_COUNT
  {
    if i < 26 then (97 + i) as char else if i < 52 then (39 + i) as char else (i - 4) as char
  }

  lemma LowerLetters(i: nat)
    requires i < 26
    ensures Letter(i) == LOWER[i]
  {
  }

  lemma UpperLetters(i: nat)
    requires 26 <= i < 52
    ensures Letter(i) == UPPER[i - 26]
  {
  }

  lemma DigitLetters(i: nat)
    requires 52 <= i < 62
    ensures Letter(i) == DIGITS[i - 52]
  {
  }

  /** Which is the one in the table, lower case, upper case, digits. */
  lemma LetterIsTableEntry(i: nat)
    requires i < LETTER_COUNT
    ensures |LOWER + UPPER + DIGITS| == LETTER_COUNT && Letter(i) == (LOWER + UPPER + DIGITS)[i]
  {
    if i < 26 {
      LowerLetters(i);
    } else if i < 52 {
      UpperLetters(i);
    } else {
      DigitLetters(i);
    }
  }

  /** A value of rand.Int63(). */
  type Word = w: int | 0 <= w < 0x8000_0000_0000_0000 witness 0

  // ---------------------------------------------------------------- specification by stream

  /** The lowest `count` chunks of six bits, lowest first. */
  function Chunks(cache: nat, count: nat): seq<nat>
    decreases count, cache
  {
    if count == 0 then [] else [cache % 64] + Chunks(cache / 64, count - 1)
  }

  /** The chunks of a stream of words, ten to a word. */
  function Stream(words: seq<Word>): seq<nat>
    decreases |words|
  {
    if words == [] then [] else Chunks(words[0], CHUNKS_PER_WORD) + Stream(words[1..])
  }

  /** The chunks that name a letter. */
  function Accepted(chunks: seq<nat>): seq<nat>
    decreases |chunks|
  {
    if chunks == [] then []
    else (if chunks[0] < LETTER_COUNT then [chunks[0]] else []) + Accepted(chunks[1..])
  }

  lemma {:induction false} AcceptedAreLetters(chunks: seq<nat>)
    ensures forall i | 0 <= i < |Accepted(chunks)| :: Accepted(chunks)[i] < LETTER_COUNT
    decreases |chunks|
  {
    if chunks != [] {
      AcceptedAreLetters(chunks[1..]);
    }
  }

  /** The letters of these indices, last one first. */
  function Spell(indices: seq<nat>): (s: string)
    requires forall i | 0 <= i < |indices| :: indices[i] < LETTER_COUNT
    ensures |s| == |indices|
    ensures forall i | 0 <= i < |s| :: s[i] == Letter(indices[|indices| - 1 - i])
  {
    seq(|indices|, i requires 0 <= i < |indices| => Letter(indices[|indices| - 1 - i]))
  }

  /** The first `n` accepted chunks of the stream. */
  function Prefix(words: seq<Word>, n: nat): seq<nat>
    requires n <= |Accepted(Stream(words))|
  {
    Accepted(Stream(words))[..n]
  }

  /** What Gen(n) must return on this stream. */
  function Alias(words: seq<Word>, n: nat): (s: string)
    requires n <= |Accepted(Stream(words))|
    ensures |s| == n
  {
    AcceptedAreLetters(Stream(words));
    Spell(Prefix(words, n))
  }

  /** Position `i` of `want` is right for the accepted chunks `all`. */
  ghost predicate SpelledAt(all: seq<nat>, want: string, i: nat)
    requires i < |want| <= |all|
  {
    && all[|want| - 1 - i] < LETTER_COUNT
    && want[i] == Letter(all[|want| - 1 - i])
  }

  lemma AliasLetter(words: seq<Word>, n: nat, i: nat)
    requires i < n <= |Accepted(Stream(words))|
    ensures SpelledAt(Accepted(Stream(words)), Alias(words, n), i)
  {
    AcceptedAreLetters(Stream(words));
  }

  // ---------------------------------------------------------------- the generator

  /** What the loop still has to read: `remain` chunks of `cache`, then the words from `next` on. */
  function Rest(cache: nat, remain: nat, words: seq<Word>, next: nat): seq<nat>
    requires next <= |words|
    decreases |words| - next, remain, cache
  {
    if remain > 0 then [cache % 64] + Rest(cache / 64, remain - 1, words, next)
    else if next < |words| then Rest(words[next], CHUNKS_PER_WORD, words, next + 1)
    else []
  }

  lemma {:induction false} RestIsStream(cache: nat, remain: nat, words: seq<Word>, next: nat)
    requires next <= |words|
    ensures Rest(cache, remain, words, next) == Chunks(cache, remain) + Stream(words[next..])
    decreases |words| - next, remain
  {
    if remain > 0 {
      RestIsStream(cache / 64, remain - 1, words, next);
    } else if next < |words| {
      RestIsStream(words[next], CHUNKS_PER_WORD, words, next + 1);
      assert words[next..][1..] == words[next + 1..];
    }
  }

  lemma RestOfAll(words: seq<Word>)
    requires |words| > 0
    ensures Rest(words[0], CHUNKS_PER_WORD, words, 1) == Stream(words)
  {
    RestIsStream(words[0], CHUNKS_PER_WORD, words, 1);
  }

  /** From chunk `k` on, `all` is what the loop will accept, told as the loop meets it. */
  predicate Reads(all: seq<nat>, k: nat, cache: nat, remain: nat, words: seq<Word>, next: nat)
    requires k <= |all| && next <= |words|
    decreases |words| - next, remain
  {
    if remain == 0 then
      if next < |words| then Reads(all, k, words[next], CHUNKS_PER_WORD, words, next + 1) else k == |all|
    else if cache % 64 < LETTER_COUNT then
      k < |all| && all[k] == cache % 64 && Reads(all, k + 1, cache / 64, remain - 1, words, next)
    else
      Reads(all, k, cache / 64, remain - 1, words, next)
  }

  /** Which is acceptance of the rest of the stream. */
  lemma {:induction false} ReadsIsAccepted(all: seq<nat>, k: nat, cache: nat, remain: nat, words: seq<Word>, next: nat)
    requires k <= |all| && next <= |words|
    ensures Reads(all, k, cache, remain, words, next) <==> all[k..] == Accepted(Rest(cache, remain, words, next))
    decreases |words| - next, remain
  {
    if remain == 0 {
      if next < |words| {
        ReadsIsAccepted(all, k, words[next], CHUNKS_PER_WORD, words, next + 1);
      }
    } else {
      var tail := Rest(cache / 64, remain - 1, words, next);
      assert Rest(cache, remain, words, next)[1..] == tail;
      if cache % 64 >= LETTER_COUNT {
        ReadsIsAccepted(all, k, cache / 64, remain - 1, words, next);
      } else if k < |all| {
        ReadsIsAccepted(all, k + 1, cache / 64, remain - 1, words, next);
        assert all[k..] == [all[k]] + all[k + 1..];
      }
    }
  }

  /** The generator's loop, for a stream whose accepted chunks are `all` and spell `want`. */
  method Draw(length: nat, words: seq<Word>, ghost all: seq<nat>, ghost want: string) returns (alias: string)
    requires |words| > 0 && Reads(all, 0, words[0], CHUNKS_PER_WORD, words, 1)
    requires |want| == length <= |all|
    requires forall i | 0 <= i < length :: SpelledAt(all, want, i)
    ensures alias == want
  {
    var result := new char[length];
    var i: int, cache: nat, remain: nat := length - 1, words[0], CHUNKS_PER_WORD;
    var next: nat := 1;
    while i >= 0
      invariant -1 <= i < length && next <= |words|
      invariant Reads(all, length - 1 - i, cache, remain, words, next)
      invariant forall k | i < k < length :: result[k] == want[k]
      decreases |words| - next, remain
    {
      if remain == 0 {
        cache, remain := words[next], CHUNKS_PER_WORD;
        next := next + 1;
      }
      assert Reads(all, length - 1 - i, cache, remain, words, next);
      var idx := cache % 64;
      if idx < LETTER_COUNT {
        assert SpelledAt(all, want, i);
        result[i] := Letter(idx);
        i := i - 1;
      }
      cache := cache / 64;
      remain := remain - 1;
    }
    alias := result[..];
  }

  /** Terminates on any stream that holds `length` accepted chunks, and spells the first ones. */
  method Gen(length: nat, words: seq<Word>) returns (alias: string)
    requires |words| > 0 && length <= |Accepted(Stream(words))|
    ensures alias == Alias(words, length)
  {
    RestOfAll(words);
    assert Accepted(Stream(words))[0..] == Accepted(Stream(words));
    ReadsIsAccepted(Accepted(Stream(words)), 0, words[0], CHUNKS_PER_WORD, words, 1);
    forall i | 0 <= i < length
      ensures SpelledAt(Accepted(Stream(words)), Alias(words, length), i)
    {
      AliasLetter(words, length, i);
    }
    alias := Draw(length, words, Accepted(Stream(words)), Alias(words, length));
  }
}
