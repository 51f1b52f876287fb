/**
 * Channel-major layout of a flat memory region: channel `ch` of a region with
 * `stride` samples per channel occupies the slots `ch * stride .. ch * stride + stride`.
 * Both collectors and the swappable buffer lay their multi-channel data out this way
 * (channelOffset[i] == i * stride).
 */
module Layout {

  /** A region of `n` zero-initialised slots. */
  function Zeros(n: nat): (r: seq<real>)
    ensures |r| == n
    ensures forall i :: 0 <= i < n ==> r[i] == 0.0
  {
    seq(n, _ => 0.0)
  }

  /** The offset table the collectors build: entry i is i * stride. */
  ghost predicate IsOffsetTable(offsets: seq<nat>, numChannels: nat, stride: nat) {
    |offsets| == numChannels && forall i :: 0 <= i < numChannels ==> offsets[i] == i * stride
  }

  function OffsetTable(numChannels: nat, stride: nat): (r: seq<nat>)
    ensures IsOffsetTable(r, numChannels, stride)
  {
    seq(numChannels, i => i * stride)
  }

  lemma MulMono(a: nat, b: nat, s: nat)
    requires a <= b
    ensures a * s <= b * s
  {
    assert b * s == a * s + (b - a) * s;
  }

  /** Channel `ch` of a region with `numChannels` channels lies inside the region. */
  lemma ChannelInBounds(ch: nat, numChannels: nat, stride: nat)
    requires ch < numChannels
    ensures ch * stride + stride <= numChannels * stride
  {
    MulMono(ch + 1, numChannels, stride);
  }

  /**
   * The channel regions of an offset table are disjoint and, in a region of
   * `numChannels * stride` slots, every one of them lies inside it.
   */
  lemma OffsetTableDisjoint(offsets: seq<nat>, numChannels: nat, stride: nat)
    requires IsOffsetTable(offsets, numChannels, stride)
    ensures forall n, m :: 0 <= n < m < numChannels ==> offsets[n] + stride <= offsets[m]
    ensures forall n :: 0 <= n < numChannels ==> offsets[n] + stride <= numChannels * stride
  {
    forall n, m | 0 <= n < m < numChannels ensures offsets[n] + stride <= offsets[m] {
      MulMono(n + 1, m, stride);
    }
    forall n | 0 <= n < numChannels ensures offsets[n] + stride <= numChannels * stride {
      ChannelInBounds(n, numChannels, stride);
    }
  }

  ghost predicate HasChannel<T>(region: seq<T>, stride: nat, ch: nat) {
    ch * stride + stride <= |region|
  }

  lemma AllChannelsInBounds<T>(region: seq<T>, stride: nat, numChannels: nat)
    requires numChannels * stride <= |region|
    ensures forall ch: nat :: ch < numChannels ==> HasChannel(region, stride, ch)
  {
    forall ch: nat | ch < numChannels ensures HasChannel(region, stride, ch) {
      ChannelInBounds(ch, numChannels, stride);
    }
  }

  /** The samples of channel `ch`. */
  function Chan<T>(region: seq<T>, stride: nat, ch: nat): (r: seq<T>)
    requires HasChannel(region, stride, ch)
    ensures |r| == stride
  {
    region[ch * stride .. ch * stride + stride]
  }

  /** Overwrites `|piece|` slots of `region` starting at `start`. */
  function Overwrite<T>(region: seq<T>, start: nat, piece: seq<T>): (r: seq<T>)
    requires start + |piece| <= |region|
    ensures |r| == |region|
  {
    region[..start] + piece + region[start + |piece|..]
  }

  /** A window of an overwritten region: untouched windows stay, a covering window shows the piece. */
  lemma OverwriteWindow<T>(region: seq<T>, start: nat, piece: seq<T>, lo: nat, hi: nat)
    requires start + |piece| <= |region|
    requires lo <= hi <= |region|
    ensures hi <= start || start + |piece| <= lo ==> Overwrite(region, start, piece)[lo..hi] == region[lo..hi]
    ensures lo <= start && start + |piece| <= hi ==>
              Overwrite(region, start, piece)[lo..hi] == region[lo..start] + piece + region[start + |piece|..hi]
  {
    var r := Overwrite(region, start, piece);
    if hi <= start || start + |piece| <= lo {
      assert forall i :: lo <= i < hi ==> r[i] == region[i];
    }
    if lo <= start && start + |piece| <= hi {
      assert forall i :: lo <= i < hi ==> r[i] == (region[lo..start] + piece + region[start + |piece|..hi])[i - lo];
    }
  }

  /** Replaces `piece` into channel `ch`, starting at position `dst` within the channel. */
  function Splice<T>(region: seq<T>, stride: nat, ch: nat, dst: nat, piece: seq<T>): (r: seq<T>)
    requires HasChannel(region, stride, ch)
    requires dst + |piece| <= stride
    ensures |r| == |region|
    ensures Chan(r, stride, ch) == Chan(region, stride, ch)[..dst] + piece + Chan(region, stride, ch)[dst + |piece|..]
    ensures forall c: nat :: c != ch && HasChannel(region, stride, c) ==> Chan(r, stride, c) == Chan(region, stride, c)
  {
    SpliceOwnChannel(region, stride, ch, dst, piece);
    forall c: nat | c != ch && HasChannel(region, stride, c)
      ensures Chan(Overwrite(region, ch * stride + dst, piece), stride, c) == Chan(region, stride, c)
    {
      SpliceOtherChannel(region, stride, ch, dst, piece, c);
    }
    Overwrite(region, ch * stride + dst, piece)
  }

  lemma SpliceOwnChannel<T>(region: seq<T>, stride: nat, ch: nat, dst: nat, piece: seq<T>)
    requires HasChannel(region, stride, ch)
    requires dst + |piece| <= stride
    ensures Chan(Overwrite(region, ch * stride + dst, piece), stride, ch)
            == Chan(region, stride, ch)[..dst] + piece + Chan(region, stride, ch)[dst + |piece|..]
  {
    var lo := ch * stride;
    var r := Overwrite(region, lo + dst, piece);
    OverwriteOwnWindow(region, lo, stride, dst, piece);
    assert Chan(r, stride, ch) == r[lo .. lo + stride];
    assert Chan(region, stride, ch) == region[lo .. lo + stride];
  }

  lemma OverwriteOwnWindow<T>(region: seq<T>, base: nat, stride: nat, dst: nat, piece: seq<T>)
    requires base + stride <= |region|
    requires dst + |piece| <= stride
    ensures Overwrite(region, base + dst, piece)[base .. base + stride]
            == region[base .. base + stride][..dst] + piece + region[base .. base + stride][dst + |piece|..]
  {
    OverwriteWindow(region, base + dst, piece, base, base + stride);
    assert region[base .. base + stride][..dst] == region[base .. base + dst];
    assert region[base .. base + stride][dst + |piece|..] == region[base + dst + |piece| .. base + stride];
  }

  lemma SpliceOtherChannel<T>(region: seq<T>, stride: nat, ch: nat, dst: nat, piece: seq<T>, c: nat)
    requires HasChannel(region, stride, ch) && HasChannel(region, stride, c) && c != ch
    requires dst + |piece| <= stride
    ensures Chan(Overwrite(region, ch * stride + dst, piece), stride, c) == Chan(region, stride, c)
  {
    ChannelsApart(ch, c, stride);
    var lo := c * stride;
    var r := Overwrite(region, ch * stride + dst, piece);
    OverwriteWindow(region, ch * stride + dst, piece, lo, lo + stride);
    assert Chan(r, stride, c) == r[lo .. lo + stride];
    assert Chan(region, stride, c) == region[lo .. lo + stride];
  }

  /** Two different channels do not overlap. */
  lemma ChannelsApart(ch: nat, c: nat, stride: nat)
    requires c != ch
    ensures c * stride + stride <= ch * stride || ch * stride + stride <= c * stride
  {
    if c < ch {
      ChannelInBounds(c, ch, stride);
    } else {
      ChannelInBounds(ch, c, stride);
    }
  }

  /** Appending one channel's worth of slots adds a channel and leaves the earlier ones alone. */
  lemma AppendChannel<T>(prev: seq<T>, tail: seq<T>, stride: nat, numChannels: nat)
    requires |prev| == numChannels * stride && |tail| == stride
    ensures |prev + tail| == (numChannels + 1) * stride
    ensures forall ch: nat :: ch < numChannels ==>
              HasChannel(prev, stride, ch) && HasChannel(prev + tail, stride, ch) &&
              Chan(prev + tail, stride, ch) == Chan(prev, stride, ch)
    ensures HasChannel(prev + tail, stride, numChannels) && Chan(prev + tail, stride, numChannels) == tail
  {
    assert (numChannels + 1) * stride == numChannels * stride + stride;
    forall ch: nat | ch < numChannels
      ensures HasChannel(prev, stride, ch) && Chan(prev + tail, stride, ch) == Chan(prev, stride, ch)
    {
      ChannelInBounds(ch, numChannels, stride);
    }
  }

  ghost predicate SourceCovers<T>(src: seq<seq<T>>, numChannels: nat, srcStart: nat, count: nat) {
    numChannels <= |src| && forall ch :: 0 <= ch < numChannels ==> srcStart + count <= |src[ch]|
  }

  /**
   * For every channel below `numChannels`, copies `count` samples of `src[ch]` starting at
   * `srcStart` to position `dst` of channel `ch`; the rest of the region is unchanged.
   */
  function {:induction false} CopyIntoChannels<T>(region: seq<T>, stride: nat, numChannels: nat, dst: nat,
                                                  src: seq<seq<T>>, srcStart: nat, count: nat): (r: seq<T>)
    requires numChannels * stride <= |region|
    requires dst + count <= stride
    requires SourceCovers(src, numChannels, srcStart, count)
    ensures |r| == |region|
    ensures forall ch: nat :: ch < numChannels ==>
              HasChannel(region, stride, ch) &&
              Chan(r, stride, ch) == Chan(region, stride, ch)[..dst] + src[ch][srcStart .. srcStart + count]
                                     + Chan(region, stride, ch)[dst + count..]
    ensures forall ch: nat :: numChannels <= ch && HasChannel(region, stride, ch) ==>
              Chan(r, stride, ch) == Chan(region, stride, ch)
    decreases numChannels
  {
    if numChannels == 0 then region
    else
      var last := numChannels - 1;
      MulMono(last, numChannels, stride);
      var prev := CopyIntoChannels(region, stride, last, dst, src, srcStart, count);
      ChannelInBounds(last, numChannels, stride);
      var r := Splice(prev, stride, last, dst, src[last][srcStart .. srcStart + count]);
      assert forall ch: nat :: ch < numChannels ==> HasChannel(region, stride, ch) by {
        forall ch: nat | ch < numChannels ensures HasChannel(region, stride, ch) {
          ChannelInBounds(ch, numChannels, stride);
        }
      }
      r
  }

  /** `CopyIntoChannels` to the start of every channel. */
  function CopyToChannelStarts<T>(region: seq<T>, stride: nat, numChannels: nat,
                                  src: seq<seq<T>>, srcStart: nat, count: nat): (r: seq<T>)
    requires numChannels * stride <= |region|
    requires count <= stride
    requires SourceCovers(src, numChannels, srcStart, count)
    ensures |r| == |region|
    ensures forall ch: nat :: ch < numChannels ==>
              HasChannel(region, stride, ch) &&
              Chan(r, stride, ch) == src[ch][srcStart .. srcStart + count] + Chan(region, stride, ch)[count..]
  {
    var r := CopyIntoChannels(region, stride, numChannels, 0, src, srcStart, count);
    assert forall ch: nat :: ch < numChannels ==>
             Chan(region, stride, ch)[..0] + src[ch][srcStart .. srcStart + count]
             == src[ch][srcStart .. srcStart + count];
    r
  }

  /** A channel lying before `cut` is the same in the region and in its first `cut` slots. */
  lemma ChanOfPrefix<T>(a: seq<T>, stride: nat, ch: nat, cut: nat)
    requires ch * stride + stride <= cut <= |a|
    ensures HasChannel(a[..cut], stride, ch) && Chan(a[..cut], stride, ch) == Chan(a, stride, ch)
  {
    var lo := ch * stride;
    assert Chan(a[..cut], stride, ch) == a[..cut][lo .. lo + stride];
    assert Chan(a, stride, ch) == a[lo .. lo + stride];
  }

  /** Two regions of `numChannels` channels agree when every channel agrees. */
  lemma {:induction false} ChannelsDetermine<T>(a: seq<T>, b: seq<T>, stride: nat, numChannels: nat)
    requires |a| == |b| == numChannels * stride
    requires forall ch: nat :: ch < numChannels ==> HasChannel(a, stride, ch) && Chan(a, stride, ch) == Chan(b, stride, ch)
    ensures a == b
    decreases numChannels
  {
    if numChannels > 0 {
      var last := numChannels - 1;
      var cut := last * stride;
      assert numChannels * stride == cut + stride;
      forall ch: nat | ch < last
        ensures HasChannel(a[..cut], stride, ch) && Chan(a[..cut], stride, ch) == Chan(b[..cut], stride, ch)
      {
        ChannelInBounds(ch, last, stride);
        ChanOfPrefix(a, stride, ch, cut);
        ChanOfPrefix(b, stride, ch, cut);
      }
      ChannelsDetermine(a[..cut], b[..cut], stride, last);
      assert Chan(a, stride, last) == a[cut..] && Chan(b, stride, last) == b[cut..];
      assert a == a[..cut] + a[cut..];
      assert b == b[..cut] + b[cut..];
    }
  }
}
