/**
 * Facts about strings built by concatenation, stated over arbitrary pieces
 * so that proofs about the statement text can cite them without unfolding
 * the text itself.
 */
module Strings {

  predicate StartsWith(s: string, p: string) {
    |p| <= |s| && s[..|p|] == p
  }

  predicate EndsWith(s: string, p: string) {
    |p| <= |s| && s[|s| - |p|..] == p
  }

  /** Proof step: a concatenation splits back into its two halves. */
  lemma SplitAt(a: string, b: string)
    ensures (a + b)[..|a|] == a && (a + b)[|a|..] == b
  {
  }

  /** Proof step: regrouping three pieces. */
  lemma Assoc(a: string, b: string, c: string)
    ensures a + b + c == a + (b + c)
  {
  }

  /** Proof step: regrouping the three pieces appended after `b`. */
  lemma Assoc3(b: string, x: string, y: string, z: string)
    ensures b + x + y + z == b + (x + y + z)
  {
  }

  /** Proof step: regrouping the four pieces appended after `b`. */
  lemma Assoc4(b: string, w: string, x: string, y: string, z: string)
    ensures b + w + x + y + z == b + (w + x + y + z)
  {
  }

  /** Proof step: regrouping the pieces of a column clause appended after `b`. */
  lemma AssocNested(b: string, h: string, p: string, a: string, d: string)
    ensures b + h + p + a + d == b + (h + (p + a + d))
  {
  }

  /** Proof step: the first two pieces of a three-piece concatenation. */
  lemma Front(a: string, b: string, c: string)
    ensures (a + b + c)[0..|a|] == a && (a + b + c)[|a|..|a| + |b|] == b
  {
  }

  /** Proof step: a slice of `l` keeps its text when `h` is put in front. */
  lemma Shift(h: string, l: string, x: nat, y: nat)
    requires x <= y <= |l|
    ensures (h + l)[|h| + x..|h| + y] == l[x..y]
  {
  }

  /** Proof step: a slice of the middle piece, read in the whole. */
  lemma SliceShift(h: string, l: string, t: string, x: nat, y: nat)
    requires x <= y <= |l|
    ensures (h + l + t)[|h| + x..|h| + y] == l[x..y]
  {
  }

  /** Proof step: the start of the last piece, read in the whole. */
  lemma SliceAfter(h: string, l: string, t: string, n: nat)
    requires n <= |t|
    ensures (h + l + t)[|h| + |l|..|h| + |l| + n] == t[..n]
  {
  }

  /** Proof step: the middle piece, read in the whole. */
  lemma MiddleOf(a: string, b: string, c: string)
    ensures (a + b + c)[|a|..|a| + |b|] == b
  {
  }

  /** `piece` occurs in `r` at offset `o`, immediately followed by `next`. */
  predicate PlacedAt(r: string, o: nat, piece: string, next: string) {
    o + |piece| + |next| <= |r|
    && r[o..o + |piece|] == piece
    && r[o + |piece|..o + |piece| + |next|] == next
  }

  /** A placement inside `l` is kept, shifted by `|h|`, in `r == h + l + t`. */
  lemma EmbedInside(r: string, h: string, l: string, t: string, o: nat, piece: string, next: string)
    requires r == h + l + t
    requires PlacedAt(l, o, piece, next)
    ensures PlacedAt(r, |h| + o, piece, next)
  {
    SliceShift(h, l, t, o, o + |piece|);
    SliceShift(h, l, t, o + |piece|, o + |piece| + |next|);
  }

  /** A piece that ends `l` is followed, in `r == h + l + t`, by the start of `t`. */
  lemma EmbedAtEnd(r: string, h: string, l: string, t: string, o: nat, piece: string, next: string)
    requires r == h + l + t
    requires o + |piece| == |l| && l[o..o + |piece|] == piece
    requires |next| <= |t| && t[..|next|] == next
    ensures PlacedAt(r, |h| + o, piece, next)
  {
    SliceShift(h, l, t, o, o + |piece|);
    SliceAfter(h, l, t, |next|);
  }

  /** A placed piece that ends with a space puts that space right before what follows it. */
  lemma LastCharPlaced(r: string, o: nat, piece: string, next: string)
    requires PlacedAt(r, o, piece, next)
    requires 0 < |piece| && piece[|piece| - 1] == ' '
    ensures PlacedAt(r, o + |piece| - 1, " ", next)
  {
    var e := o + |piece|;
    assert r[e - 1] == r[o..e][|piece| - 1];
    assert r[e - 1..e] == [r[e - 1]];
  }
}
