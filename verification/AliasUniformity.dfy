/** Rejection introduces no bias: the word streams of any length that give one alias and those that
    give another are exchanged by a map that undoes itself. */
module AliasUniformity {
  import opened AliasGen

  ghost predicate Indices(p: seq<nat>) {
    forall i | 0 <= i < |p| :: p[i] < LETTER_COUNT
  }

  // ---------------------------------------------------------------- distinct prefixes, distinct aliases

  lemma LetterIsInjective(i: nat, j: nat)
    requires i < LETTER_COUNT && j < LETTER_COUNT && Letter(i) == Letter(j)
    ensures i == j
  {
  }

  lemma SpellIsInjective(p: seq<nat>, q: seq<nat>)
    requires Indices(p) && Indices(q) && |p| == |q|
    ensures Spell(p) == Spell(q) <==> p == q
  {
    if Spell(p) == Spell(q) {
      forall i | 0 <= i < |p| ensures p[i] == q[i] {
        assert Spell(p)[|p| - 1 - i] == Spell(q)[|p| - 1 - i];
        LetterIsInjective(p[i], q[i]);
      }
    }
  }

  // ---------------------------------------------------------------- renaming all letters at once

  /** Renames every accepted chunk by the permutation `pi` of the indices; 62 and 63 stay. */
  function Rename(pi: seq<nat>, chunks: seq<nat>): seq<nat>
    requires |pi| == LETTER_COUNT
    decreases |chunks|
  {
    if chunks == [] then []
    else [if chunks[0] < LETTER_COUNT then pi[chunks[0]] else chunks[0]] + Rename(pi, chunks[1..])
  }

  /** Renaming the stream renames what is accepted, index by index: no letter is treated specially. */
  lemma {:induction false} RenamingCommutes(pi: seq<nat>, chunks: seq<nat>)
    requires |pi| == LETTER_COUNT && Indices(pi)
    ensures |Accepted(Rename(pi, chunks))| == |Accepted(chunks)|
    ensures Indices(Accepted(chunks))
    ensures forall i | 0 <= i < |Accepted(chunks)| :: Accepted(Rename(pi, chunks))[i] == pi[Accepted(chunks)[i]]
    decreases |chunks|
  {
    if chunks != [] {
      RenamingCommutes(pi, chunks[1..]);
      assert Rename(pi, chunks)[1..] == Rename(pi, chunks[1..]);
    }
  }

  // ---------------------------------------------------------------- exchanging two aliases

  function Swap(x: nat, y: nat, c: nat): nat {
    if c == x then y else if c == y then x else c
  }

  /** Exchanges p[i] and q[i] in the i-th accepted chunk, for the first |p| of them. */
  function Retarget(p: seq<nat>, q: seq<nat>, chunks: seq<nat>): seq<nat>
    requires |p| == |q|
    decreases |chunks|
  {
    if p == [] || chunks == [] then chunks
    else if chunks[0] >= LETTER_COUNT then [chunks[0]] + Retarget(p, q, chunks[1..])
    else [Swap(p[0], q[0], chunks[0])] + Retarget(p[1..], q[1..], chunks[1..])
  }

  lemma {:induction false} RetargetShape(p: seq<nat>, q: seq<nat>, chunks: seq<nat>)
    requires |p| == |q| && Indices(p) && Indices(q)
    ensures |Retarget(p, q, chunks)| == |chunks|
    ensures forall i | 0 <= i < |chunks| ::
              if chunks[i] < LETTER_COUNT then Retarget(p, q, chunks)[i] < LETTER_COUNT
              else Retarget(p, q, chunks)[i] == chunks[i]
    decreases |chunks|
  {
    if p != [] && chunks != [] {
      if chunks[0] >= LETTER_COUNT {
        RetargetShape(p, q, chunks[1..]);
      } else {
        RetargetShape(p[1..], q[1..], chunks[1..]);
      }
    }
  }

  lemma {:induction false} RetargetUndoesItself(p: seq<nat>, q: seq<nat>, chunks: seq<nat>)
    requires |p| == |q| && Indices(p) && Indices(q)
    ensures Retarget(p, q, Retarget(p, q, chunks)) == chunks
    decreases |chunks|
  {
    if p != [] && chunks != [] {
      var r := Retarget(p, q, chunks);
      if chunks[0] >= LETTER_COUNT {
        RetargetUndoesItself(p, q, chunks[1..]);
        assert r[1..] == Retarget(p, q, chunks[1..]);
      } else {
        RetargetUndoesItself(p[1..], q[1..], chunks[1..]);
        assert r[1..] == Retarget(p[1..], q[1..], chunks[1..]);
      }
      assert chunks == [chunks[0]] + chunks[1..];
    }
  }

  lemma {:induction false} RetargetAccepted(p: seq<nat>, q: seq<nat>, chunks: seq<nat>)
    requires |p| == |q| && Indices(p) && Indices(q)
    ensures |Accepted(Retarget(p, q, chunks))| == |Accepted(chunks)|
    ensures forall i | 0 <= i < |p| && i < |Accepted(chunks)| ::
              Accepted(Retarget(p, q, chunks))[i] == Swap(p[i], q[i], Accepted(chunks)[i])
    decreases |chunks|
  {
    if p != [] && chunks != [] {
      var r := Retarget(p, q, chunks);
      if chunks[0] >= LETTER_COUNT {
        RetargetAccepted(p, q, chunks[1..]);
        assert r[1..] == Retarget(p, q, chunks[1..]);
      } else {
        RetargetAccepted(p[1..], q[1..], chunks[1..]);
        assert r[1..] == Retarget(p[1..], q[1..], chunks[1..]);
      }
    }
  }

  // ---------------------------------------------------------------- words and their chunks

  function Pow64(n: nat): nat {
    if n == 0 then 1 else 64 * Pow64(n - 1)
  }

  /** The bits of a word above its `count` lowest chunks. */
  function Top(cache: nat, count: nat): nat
    decreases count, cache
  {
    if count == 0 then cache else Top(cache / 64, count - 1)
  }

  function Pack(chunks: seq<nat>, top: nat): nat
    decreases |chunks|
  {
    if chunks == [] then top else chunks[0] + 64 * Pack(chunks[1..], top)
  }

  lemma {:induction false} PackChunks(cache: nat, count: nat)
    ensures |Chunks(cache, count)| == count
    ensures forall i | 0 <= i < count :: Chunks(cache, count)[i] < 64
    ensures Pack(Chunks(cache, count), Top(cache, count)) == cache
    decreases count
  {
    if count > 0 {
      PackChunks(cache / 64, count - 1);
      assert Chunks(cache, count)[1..] == Chunks(cache / 64, count - 1);
    }
  }

  lemma {:induction false} ChunksPack(chunks: seq<nat>, top: nat)
    requires forall i | 0 <= i < |chunks| :: chunks[i] < 64
    ensures Chunks(Pack(chunks, top), |chunks|) == chunks
    ensures Top(Pack(chunks, top), |chunks|) == top
    decreases |chunks|
  {
    if chunks != [] {
      ChunksPack(chunks[1..], top);
      var low, high := chunks[0], Pack(chunks[1..], top);
      assert (low + 64 * high) % 64 == low && (low + 64 * high) / 64 == high;
      assert chunks == [low] + chunks[1..];
    }
  }

  lemma {:induction false} PackBound(chunks: seq<nat>, top: nat, bound: nat)
    requires top < bound && forall i | 0 <= i < |chunks| :: chunks[i] < 64
    ensures Pack(chunks, top) < Pow64(|chunks|) * bound
    decreases |chunks|
  {
    if chunks != [] {
      PackBound(chunks[1..], top, bound);
      var m := Pow64(|chunks| - 1);
      assert 64 * (m * bound) == (64 * m) * bound;
    }
  }

  lemma {:induction false} TopBound(cache: nat, count: nat, bound: nat)
    requires cache < Pow64(count) * bound
    ensures Top(cache, count) < bound
    decreases count
  {
    if count > 0 {
      var m := Pow64(count - 1);
      assert (64 * m) * bound == 64 * (m * bound);
      TopBound(cache / 64, count - 1, bound);
    }
  }

  lemma WordSize()
    ensures Pow64(CHUNKS_PER_WORD) * 8 == 0x8000_0000_0000_0000
  {
    assert Pow64(5) == 0x4000_0000;
    assert Pow64(10) == 64 * 64 * 64 * 64 * 64 * Pow64(5);
  }

  /** The words with the chunks of `chunks` and the top bits of `words`. */
  function Repack(chunks: seq<nat>, words: seq<Word>): seq<Word>
    requires |chunks| == CHUNKS_PER_WORD * |words|
    requires forall i | 0 <= i < |chunks| :: chunks[i] < 64
    decreases |words|
  {
    if words == [] then []
    else [PackWord(chunks[..CHUNKS_PER_WORD], words[0])] + Repack(chunks[CHUNKS_PER_WORD..], words[1..])
  }

  function PackWord(chunks: seq<nat>, w: Word): Word
    requires |chunks| == CHUNKS_PER_WORD
    requires forall i | 0 <= i < |chunks| :: chunks[i] < 64
  {
    WordSize();
    TopBound(w, CHUNKS_PER_WORD, 8);
    PackBound(chunks, Top(w, CHUNKS_PER_WORD), 8);
    Pack(chunks, Top(w, CHUNKS_PER_WORD))
  }

  lemma {:induction false} StreamShape(words: seq<Word>)
    ensures |Stream(words)| == CHUNKS_PER_WORD * |words|
    ensures forall i | 0 <= i < |Stream(words)| :: Stream(words)[i] < 64
    decreases |words|
  {
    if words != [] {
      PackChunks(words[0], CHUNKS_PER_WORD);
      StreamShape(words[1..]);
    }
  }

  ghost predicate SameTops(v: seq<Word>, w: seq<Word>) {
    |v| == |w| && forall i | 0 <= i < |v| :: Top(v[i], CHUNKS_PER_WORD) == Top(w[i], CHUNKS_PER_WORD)
  }

  /** Repacking a word: its chunks are the given ones, its top bits the old ones. */
  lemma PackWordShape(chunks: seq<nat>, w: Word)
    requires |chunks| == CHUNKS_PER_WORD
    requires forall i | 0 <= i < |chunks| :: chunks[i] < 64
    ensures Chunks(PackWord(chunks, w), CHUNKS_PER_WORD) == chunks
    ensures Top(PackWord(chunks, w), CHUNKS_PER_WORD) == Top(w, CHUNKS_PER_WORD)
  {
    ChunksPack(chunks, Top(w, CHUNKS_PER_WORD));
  }

  lemma {:induction false} StreamOfRepacked(chunks: seq<nat>, words: seq<Word>)
    requires |chunks| == CHUNKS_PER_WORD * |words|
    requires forall i | 0 <= i < |chunks| :: chunks[i] < 64
    ensures SameTops(Repack(chunks, words), words)
    ensures Stream(Repack(chunks, words)) == chunks
    decreases |words|
  {
    if words != [] {
      var r := Repack(chunks, words);
      PackWordShape(chunks[..CHUNKS_PER_WORD], words[0]);
      StreamOfRepacked(chunks[CHUNKS_PER_WORD..], words[1..]);
      assert r[1..] == Repack(chunks[CHUNKS_PER_WORD..], words[1..]);
      assert chunks == chunks[..CHUNKS_PER_WORD] + chunks[CHUNKS_PER_WORD..];
      assert forall i | 1 <= i < |r| :: r[i] == r[1..][i - 1] && words[i] == words[1..][i - 1];
    }
  }

  lemma {:induction false} SameStreamSameWords(v: seq<Word>, w: seq<Word>)
    requires SameTops(v, w) && Stream(v) == Stream(w)
    ensures v == w
    decreases |v|
  {
    if v != [] {
      PackChunks(v[0], CHUNKS_PER_WORD);
      PackChunks(w[0], CHUNKS_PER_WORD);
      assert Chunks(v[0], CHUNKS_PER_WORD) == Stream(v)[..CHUNKS_PER_WORD];
      assert Chunks(w[0], CHUNKS_PER_WORD) == Stream(w)[..CHUNKS_PER_WORD];
      assert Stream(v[1..]) == Stream(v)[CHUNKS_PER_WORD..];
      assert Stream(w[1..]) == Stream(w)[CHUNKS_PER_WORD..];
      SameStreamSameWords(v[1..], w[1..]);
      assert v == [v[0]] + v[1..] && w == [w[0]] + w[1..];
    }
  }

  /** The exchange of p and q on word streams. */
  function RetargetWords(p: seq<nat>, q: seq<nat>, words: seq<Word>): seq<Word>
    requires |p| == |q| && Indices(p) && Indices(q)
  {
    StreamShape(words);
    RetargetShape(p, q, Stream(words));
    Repack(Retarget(p, q, Stream(words)), words)
  }

  lemma RetargetWordsShape(p: seq<nat>, q: seq<nat>, words: seq<Word>)
    requires |p| == |q| && Indices(p) && Indices(q)
    ensures SameTops(RetargetWords(p, q, words), words)
    ensures Stream(RetargetWords(p, q, words)) == Retarget(p, q, Stream(words))
  {
    StreamShape(words);
    RetargetShape(p, q, Stream(words));
    StreamOfRepacked(Retarget(p, q, Stream(words)), words);
  }

  /** No bias. For any two index sequences p and q of length n there is a map on word streams, keeping
      their length and undoing itself, that sends exactly the streams on which Gen(n) spells p to streams
      on which it spells q. So both aliases come from equally many streams of every length. */
  lemma AliasesAreEquallyLikely(p: seq<nat>, q: seq<nat>, words: seq<Word>)
    requires |p| == |q| && Indices(p) && Indices(q)
    requires |p| <= |Accepted(Stream(words))|
    ensures |RetargetWords(p, q, words)| == |words|
    ensures RetargetWords(p, q, RetargetWords(p, q, words)) == words
    ensures |p| <= |Accepted(Stream(RetargetWords(p, q, words)))|
    ensures Alias(RetargetWords(p, q, words), |p|) == Spell(q) <==> Alias(words, |p|) == Spell(p)
  {
    var v := RetargetWords(p, q, words);
    RetargetWordsShape(p, q, words);
    RetargetWordsShape(p, q, v);
    RetargetUndoesItself(p, q, Stream(words));
    SameStreamSameWords(RetargetWords(p, q, v), words);
    RetargetAccepted(p, q, Stream(words));
    AcceptedAreLetters(Stream(words));
    AcceptedAreLetters(Stream(v));
    var n := |p|;
    SpellIsInjective(Prefix(v, n), q);
    SpellIsInjective(Prefix(words, n), p);
    assert Prefix(v, n) == q <==> Prefix(words, n) == p by {
      assert forall i | 0 <= i < n :: Prefix(v, n)[i] == Swap(p[i], q[i], Prefix(words, n)[i]);
      assert Prefix(v, n) == q ==> forall i | 0 <= i < n :: q[i] == Swap(p[i], q[i], Prefix(words, n)[i]);
    }
  }
}
