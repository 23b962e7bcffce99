/** A byte buffer cut into pages, as the physical memory and the disk are. */
module FlatMemory {
  function PageOf<T>(buf: seq<T>, size: nat, i: nat): seq<T> {
    if i * size + size <= |buf| then buf[i * size..i * size + size] else []
  }

  function Split<T>(buf: seq<T>, size: nat, n: nat): (pages: seq<seq<T>>)
    ensures |pages| == n
  {
    seq(n, i requires 0 <= i < n => PageOf(buf, size, i))
  }

  lemma {:induction false} Apart(i: nat, j: nat, size: nat)
    requires i < j
    ensures i * size + size <= j * size
  {
    assert j * size == (j - 1) * size + size;
    if i < j - 1 {
      Apart(i, j - 1, size);
    }
  }

  lemma Fits(i: nat, n: nat, size: nat)
    requires i < n
    ensures 0 <= i * size && i * size + size <= n * size
  {
    Apart(i, n, size);
  }

  /** Writing over one page changes that page and no other. */
  lemma SplitPatch<T>(buf: seq<T>, buf': seq<T>, size: nat, n: nat, f: nat, page: seq<T>)
    requires |buf| == |buf'| == n * size && f < n && |page| == size
    requires forall k :: 0 <= k < |buf| ==>
      buf'[k] == if f * size <= k < f * size + size then page[k - f * size] else buf[k]
    ensures Split(buf', size, n) == Split(buf, size, n)[f := page]
  {
    forall i: nat | i < n ensures PageOf(buf', size, i) == if i == f then page else PageOf(buf, size, i) {
      Fits(i, n, size);
      if i < f { Apart(i, f, size); } else if f < i { Apart(f, i, size); }
    }
  }

  lemma SplitPoke<T>(buf: seq<T>, size: nat, n: nat, f: nat, off: nat, v: T)
    requires |buf| == n * size && f < n && off < size
    ensures 0 <= f * size + off < |buf|
    ensures |Split(buf, size, n)[f]| == size
    ensures Split(buf[f * size + off := v], size, n) == Split(buf, size, n)[f := Split(buf, size, n)[f][off := v]]
  {
    Fits(f, n, size);
    SplitPatch(buf, buf[f * size + off := v], size, n, f, PageOf(buf, size, f)[off := v]);
  }

  lemma SplitLength<T>(buf: seq<T>, size: nat, n: nat)
    requires |buf| == n * size
    ensures forall i :: 0 <= i < n ==> |Split(buf, size, n)[i]| == size
  {
    forall i: nat | i < n ensures |PageOf(buf, size, i)| == size { Fits(i, n, size); }
  }

  /** memcpy of one page between two buffers. */
  method CopyPage<T>(dst: array<T>, d: nat, src: array<T>, s: nat, size: nat, ghost dn: nat, ghost sn: nat)
    requires dst != src && dst.Length == dn * size && src.Length == sn * size && d < dn && s < sn
    modifies dst
    ensures Split(dst[..], size, dn) == old(Split(dst[..], size, dn))[d := Split(src[..], size, sn)[s]]
  {
    Fits(d, dn, size);
    Fits(s, sn, size);
    ghost var page := PageOf(src[..], size, s);
    for k := 0 to size
      invariant forall j :: 0 <= j < dst.Length ==>
        dst[j] == if d * size <= j < d * size + k then page[j - d * size] else old(dst[..])[j]
    {
      dst[d * size + k] := src[s * size + k];
    }
    SplitPatch(old(dst[..]), dst[..], size, dn, d, page);
  }

  /** memset of one page. */
  method FillPage<T>(dst: array<T>, d: nat, v: T, size: nat, ghost dn: nat)
    requires dst.Length == dn * size && d < dn
    modifies dst
    ensures Split(dst[..], size, dn) == old(Split(dst[..], size, dn))[d := seq(size, _ => v)]
  {
    Fits(d, dn, size);
    for k := 0 to size
      invariant forall j :: 0 <= j < dst.Length ==>
        dst[j] == if d * size <= j < d * size + k then v else old(dst[..])[j]
    {
      dst[d * size + k] := v;
    }
    SplitPatch(old(dst[..]), dst[..], size, dn, d, seq(size, _ => v));
  }
}
