/** The parser's view of its token stream: a fully materialised token list and
    the index of the next unconsumed token. peekmore's lookahead
    (src/parser.rs:71-77, 92-94) becomes reading at an offset from that index. */
module Cursor {
  import opened Tokens

  /** `peek_nth(idx)`: the token `idx` places past the cursor, or None past the
      end; `peek()` is `PeekNthAt(toks, p, 0)`. */
  function PeekNthAt(toks: seq<Token>, p: nat, idx: nat): (r: Option<Token>)
    ensures r.Some? <==> p + idx < |toks|
    ensures r.Some? ==> r.value == toks[p + idx]
  {
    if p + idx < |toks| then Some(toks[p + idx]) else None
  }

  /** `window(from, to)`, after peekmore's `peek_range`: one slot per offset in
      `[from, to)`, so exactly `to - from` slots whatever is left of the input. */
  function WindowAt(toks: seq<Token>, p: nat, from: nat, to: nat): (w: seq<Option<Token>>)
    requires from <= to
    ensures |w| == to - from
  {
    if from == to then [] else WindowAt(toks, p, from, to - 1) + [PeekNthAt(toks, p, to - 1)]
  }

  /** Slot `k` of `window(lo, hi)` is what `peek_nth(lo + k)` yields. */
  lemma {:induction false} WindowSlots(toks: seq<Token>, p: nat, lo: nat, hi: nat)
    requires lo <= hi
    ensures forall k :: 0 <= k < hi - lo ==> WindowAt(toks, p, lo, hi)[k] == PeekNthAt(toks, p, lo + k)
    decreases hi
  {
    if lo < hi {
      WindowSlots(toks, p, lo, hi - 1);
    }
  }

  /** Consuming `n` tokens shifts every window by `n`: what was seen at offset
      `from + n` is afterwards seen at offset `from`. */
  lemma {:induction false} WindowAfterConsume(toks: seq<Token>, p: nat, n: nat, from: nat, to: nat)
    requires from <= to
    ensures WindowAt(toks, p + n, from, to) == WindowAt(toks, p, from + n, to + n)
  {
    var a, b := WindowAt(toks, p + n, from, to), WindowAt(toks, p, from + n, to + n);
    WindowSlots(toks, p + n, from, to);
    WindowSlots(toks, p, from + n, to + n);
    assert |a| == |b|;
    forall k | 0 <= k < |a| ensures a[k] == b[k] {
      assert a[k] == PeekNthAt(toks, p + n, from + k);
      assert b[k] == PeekNthAt(toks, p, from + n + k);
    }
  }

  /** `x` occurs in `toks` starting at `p`. */
  ghost predicate At(toks: seq<Token>, p: nat, x: seq<Token>) {
    p + |x| <= |toks| && toks[p..p + |x|] == x
  }

  lemma AtSplit(toks: seq<Token>, p: nat, x: seq<Token>, y: seq<Token>)
    requires At(toks, p, x + y)
    ensures At(toks, p, x) && At(toks, p + |x|, y)
  {
    assert toks[p..p + |x|] == (x + y)[..|x|];
    assert toks[p + |x|..p + |x| + |y|] == (x + y)[|x|..];
  }

  lemma AtIndex(toks: seq<Token>, p: nat, x: seq<Token>, i: nat)
    requires At(toks, p, x) && i < |x|
    ensures toks[p + i] == x[i]
  {
    assert toks[p..p + |x|][i] == x[i];
  }

  /** Tokens `x + y` at `p` are `x` at `p` and then `y`; the first token
      at `p` is the first of `x`. */
  lemma AtConcat(toks: seq<Token>, p: nat, x: seq<Token>, y: seq<Token>)
    requires x != [] && At(toks, p, x + y)
    ensures At(toks, p, x) && At(toks, p + |x|, y)
    ensures p < |toks| && toks[p] == x[0]
  {
    AtSplit(toks, p, x, y);
    AtIndex(toks, p, x, 0);
  }

  /** `x` at `p` followed by `y` right after it is `x + y` at `p`. */
  lemma AtJoin(toks: seq<Token>, p: nat, x: seq<Token>, y: seq<Token>)
    requires At(toks, p, x) && At(toks, p + |x|, y)
    ensures At(toks, p, x + y)
  {
    assert toks[p..p + |x| + |y|] == toks[p..p + |x|] + toks[p + |x|..p + |x| + |y|];
  }

  /** `x`, then `y` and `z` right after it, is `x + y` followed by `z`. */
  lemma AtJoinAssoc(toks: seq<Token>, p: nat, x: seq<Token>, y: seq<Token>, z: seq<Token>)
    requires At(toks, p, x) && At(toks, p + |x|, y + z)
    ensures At(toks, p, (x + y) + z)
  {
    AtJoin(toks, p, x, y + z);
    assert x + (y + z) == (x + y) + z;
  }
}
