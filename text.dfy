/**
 * Go strings and the few functions of Go's `strings` package that the core
 * calls: `Split` and `Join` on a single space, `TrimSpace` and `ToLower`.
 * A Go string is a sequence of bytes, so `len` counts bytes.
 */
module Text {

  /** One byte of a Go string. */
  newtype byte = b: int | 0 <= b < 256

  /** A Go string. */
  type Bytes = seq<byte>

  /** The separator every `strings.Split` and `strings.Join` of the core uses. */
  const Space: byte := 32

  /** The bytes of an ASCII literal (its UTF-8 encoding). */
  function Str(s: string): Bytes
    requires forall i | 0 <= i < |s| :: s[i] as int < 128
  {
    seq(|s|, i requires 0 <= i < |s| => s[i] as int as byte)
  }

  lemma {:induction false} StrAppend(s: string, t: string)
    requires forall i | 0 <= i < |s| :: s[i] as int < 128
    requires forall i | 0 <= i < |t| :: t[i] as int < 128
    ensures Str(s + t) == Str(s) + Str(t)
  {
  }

  /** A literal without a blank has no `Space` byte. */
  lemma {:induction false} StrWithoutBlank(s: string)
    requires forall i | 0 <= i < |s| :: s[i] as int < 128
    requires ' ' !in s
    ensures Space !in Str(s)
  {
  }

  /** How many times `b` occurs in `s`. */
  function Count(s: Bytes, b: byte): nat
  {
    if s == [] then 0 else (if s[0] == b then 1 else 0) + Count(s[1..], b)
  }

  lemma {:induction false} CountAppend(s: Bytes, t: Bytes, b: byte)
    ensures Count(s + t, b) == Count(s, b) + Count(t, b)
  {
    if s == [] {
      assert s + t == t;
    } else {
      assert (s + t)[1..] == s[1..] + t;
      CountAppend(s[1..], t, b);
    }
  }

  lemma {:induction false} CountAbsent(s: Bytes, b: byte)
    ensures Count(s, b) == 0 <==> b !in s
  {
    if s != [] {
      CountAbsent(s[1..], b);
      assert s == [s[0]] + s[1..];
    }
  }

  /** `strings.Join(words, " ")`. */
  function Join(words: seq<Bytes>): Bytes
  {
    if |words| == 0 then []
    else if |words| == 1 then words[0]
    else words[0] + [Space] + Join(words[1..])
  }

  /** Joining space-free words puts exactly one space between each two neighbours. */
  lemma {:induction false} JoinCount(words: seq<Bytes>)
    requires |words| > 0
    requires forall i | 0 <= i < |words| :: Space !in words[i]
    ensures Count(Join(words), Space) == |words| - 1
  {
    CountAbsent(words[0], Space);
    if |words| > 1 {
      JoinCount(words[1..]);
      CountAppend(words[0], [Space], Space);
      CountAppend(words[0] + [Space], Join(words[1..]), Space);
    }
  }

  /**
   * `strings.Split(s, " ")`: the pieces between the spaces of `s`, in order.
   * The empty string splits into one empty word, and two adjacent spaces
   * leave an empty word between them.
   */
  function Split(s: Bytes): (words: seq<Bytes>)
    ensures |words| == Count(s, Space) + 1
    ensures forall i | 0 <= i < |words| :: Space !in words[i]
    ensures Join(words) == s
    decreases |s|
  {
    if s == [] then [[]]
    else
      var rest := Split(s[1..]);
      if s[0] == Space then
        assert Join([[]] + rest) == [Space] + Join(rest) by {
          assert ([[]] + rest)[1..] == rest;
        }
        [[]] + rest
      else
        var words := [[s[0]] + rest[0]] + rest[1..];
        assert Join(words) == [s[0]] + Join(rest) by {
          if |rest| > 1 {
            assert words[1..] == rest[1..];
          }
        }
        words
  }

  /** A word without spaces splits into itself. */
  lemma {:induction false} SplitWord(w: Bytes)
    requires Space !in w
    ensures Split(w) == [w]
  {
    CountAbsent(w, Space);
  }

  /** Splitting a space-free word followed by a space and more text. */
  lemma {:induction false} SplitWordThen(w: Bytes, t: Bytes)
    requires Space !in w
    ensures Split(w + [Space] + t) == [w] + Split(t)
    decreases |w|
  {
    var s := w + [Space] + t;
    if w == [] {
      assert s[1..] == t;
    } else {
      assert s[1..] == w[1..] + [Space] + t;
      SplitWordThen(w[1..], t);
      assert [w[0]] + w[1..] == w;
    }
  }

  /** `Split` undoes `Join` on space-free words: the two are inverse. */
  lemma {:induction false} SplitJoin(words: seq<Bytes>)
    requires |words| >= 1
    requires forall i | 0 <= i < |words| :: Space !in words[i]
    ensures Split(Join(words)) == words
  {
    if |words| == 1 {
      SplitWord(words[0]);
    } else {
      SplitJoin(words[1..]);
      SplitWordThen(words[0], Join(words[1..]));
      assert [words[0]] + words[1..] == words;
    }
  }

  /** The second word of a split is the text between the first and the second space. */
  lemma {:induction false} SplitSecondWord(first: Bytes, second: Bytes, rest: Bytes)
    requires Space !in first && Space !in second
    requires rest == [] || rest[0] == Space
    ensures |Split(first + [Space] + second + rest)| >= 2
    ensures Split(first + [Space] + second + rest)[1] == second
  {
    var tail := second + rest;
    assert first + [Space] + second + rest == first + [Space] + tail;
    SplitWordThen(first, tail);
    var words := Split(tail);
    if rest == [] {
      assert tail == second;
      SplitWord(second);
    } else {
      assert tail == second + [Space] + rest[1..];
      SplitWordThen(second, rest[1..]);
    }
    assert words[0] == second;
  }

  /** ASCII white space, as `strings.TrimSpace` removes it. */
  predicate IsSpace(b: byte)
  {
    b == 9 || b == 10 || b == 11 || b == 12 || b == 13 || b == 32
  }

  predicate AllSpace(s: Bytes)
  {
    forall i | 0 <= i < |s| :: IsSpace(s[i])
  }

  function TrimLeft(s: Bytes): (r: Bytes)
    ensures |r| <= |s| && r == s[|s| - |r|..]
    ensures AllSpace(s[..|s| - |r|])
    ensures r == [] || !IsSpace(r[0])
  {
    if s != [] && IsSpace(s[0]) then
      var r := TrimLeft(s[1..]);
      assert s[..|s| - |r|] == [s[0]] + s[1..][..|s| - 1 - |r|];
      r
    else s
  }

  function TrimRight(s: Bytes): (r: Bytes)
    ensures |r| <= |s| && r == s[..|r|]
    ensures AllSpace(s[|r|..])
    ensures r == [] || !IsSpace(r[|r| - 1])
  {
    if s != [] && IsSpace(s[|s| - 1]) then
      var r := TrimRight(s[..|s| - 1]);
      assert s[|r|..] == s[..|s| - 1][|r|..] + [s[|s| - 1]];
      r
    else s
  }

  /** `strings.TrimSpace`: `s` without its leading and trailing white space. */
  function TrimSpace(s: Bytes): (r: Bytes)
    ensures r == [] || (!IsSpace(r[0]) && !IsSpace(r[|r| - 1]))
  {
    TrimRight(TrimLeft(s))
  }

  /** White space around a text that neither starts nor ends with white space is exactly what `TrimSpace` removes. */
  lemma {:induction false} TrimSpaceAround(pre: Bytes, core: Bytes, post: Bytes)
    requires AllSpace(pre) && AllSpace(post)
    requires core == [] || (!IsSpace(core[0]) && !IsSpace(core[|core| - 1]))
    ensures TrimSpace(pre + core + post) == core
  {
    var s := pre + core + post;
    if core != [] {
      TrimLeftDrops(pre, core + post);
      assert pre + (core + post) == s;
      TrimRightDrops(core, post);
    }
  }

  /** A text that neither starts nor ends with white space is left as it is. */
  lemma {:induction false} TrimSpaceUntouched(s: Bytes)
    requires s == [] || (!IsSpace(s[0]) && !IsSpace(s[|s| - 1]))
    ensures TrimSpace(s) == s
  {
    assert [] + s + [] == s;
    TrimSpaceAround([], s, []);
  }

  lemma {:induction false} TrimLeftDrops(pre: Bytes, t: Bytes)
    requires AllSpace(pre)
    requires t == [] || !IsSpace(t[0])
    ensures TrimLeft(pre + t) == t
  {
    if pre != [] {
      assert (pre + t)[1..] == pre[1..] + t;
      TrimLeftDrops(pre[1..], t);
    } else {
      assert pre + t == t;
    }
  }

  lemma {:induction false} TrimRightDrops(t: Bytes, post: Bytes)
    requires AllSpace(post)
    requires t == [] || !IsSpace(t[|t| - 1])
    ensures TrimRight(t + post) == t
  {
    if post != [] {
      var p := post[..|post| - 1];
      assert (t + post)[..|t + post| - 1] == t + p;
      TrimRightDrops(t, p);
    } else {
      assert t + post == t;
    }
  }

  /** `unicode.ToLower` on an ASCII byte. */
  function LowerByte(b: byte): byte
  {
    if 65 <= b <= 90 then b + 32 else b
  }

  /** `strings.ToLower`, for ASCII text: every upper-case letter becomes its lower-case form. */
  function Lower(s: Bytes): Bytes
  {
    seq(|s|, i requires 0 <= i < |s| => LowerByte(s[i]))
  }

  /** No upper-case letter is left, and every other byte is kept. */
  lemma {:induction false} LowerNoCapitals(s: Bytes)
    ensures |Lower(s)| == |s|
    ensures forall i | 0 <= i < |s| ::
      !(65 <= Lower(s)[i] <= 90) && (Lower(s)[i] == s[i] || Lower(s)[i] as int == s[i] as int + 32)
    ensures forall i | 0 <= i < |s| :: !(65 <= s[i] <= 90) ==> Lower(s)[i] == s[i]
  {
  }

  /** Lower-casing twice is lower-casing once. */
  lemma {:induction false} LowerIdempotent(s: Bytes)
    ensures Lower(Lower(s)) == Lower(s)
  {
  }
}
