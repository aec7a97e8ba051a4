/** The bytes that a plugin package's assets digest and signature are computed over. */
module PackageFraming {
  import opened Outcome
  import opened Sorting
  import opened TextOrder

  newtype Byte = n: int | 0 <= n < 256

  type Bytes = seq<Byte>

  /** A file under the assets directory; the names of a package are distinct. */
  datatype Asset = Asset(name: string, content: Bytes)

  /** Text encoding and hash function. */
  datatype Codec = Codec(encode: string -> Bytes, hash: Bytes -> Bytes)

  const DigestLength := 32
  const LengthBound := 0x1_0000_0000

  ghost predicate Proper(codec: Codec) {
    && (forall a, b :: codec.encode(a) == codec.encode(b) ==> a == b)
    && (forall b :: |codec.hash(b)| == DigestLength)
  }

  // ----- the order of names

  predicate Earlier(a: Asset, b: Asset) { Before(a.name, b.name) }

  lemma {:induction false} EarlierStrict()
    ensures Strict(Earlier)
  {
    forall x: Asset
      ensures !Earlier(x, x)
    {
      BeforeIrreflexive(x.name);
    }
    forall x: Asset, y: Asset, z: Asset | Earlier(x, y) && Earlier(y, z)
      ensures Earlier(x, z)
    {
      BeforeTransitive(x.name, y.name, z.name);
    }
  }

  /** A dictionary: no two entries have the same name. */
  ghost predicate Named(assets: seq<Asset>) {
    forall i, j | 0 <= i < j < |assets| :: assets[i].name != assets[j].name
  }

  lemma {:induction false} NamedDistinct(assets: seq<Asset>)
    requires Named(assets)
    ensures Sorting.Distinct(assets)
  {
    if assets != [] {
      assert forall i | 0 <= i < |assets[1..]| :: assets[1..][i] == assets[i + 1];
      NamedDistinct(assets[1..]);
    }
  }

  lemma {:induction false} NamedTotal(assets: seq<Asset>)
    requires Named(assets)
    ensures TotalOn(Earlier, assets)
  {
    forall x, y | x in assets && y in assets && x != y
      ensures Earlier(x, y) || Earlier(y, x)
    {
      BeforeTotal(x.name, y.name);
    }
  }

  // ----- frames

  /** The low four bytes of `n`, highest first. */
  function BigEndian(n: nat): Bytes {
    var a := n / 0x100;
    var b := a / 0x100;
    [(b / 0x100 % 0x100) as Byte, (b % 0x100) as Byte, (a % 0x100) as Byte, (n % 0x100) as Byte]
  }

  function Length(b: Bytes): nat
    requires |b| == 4
  {
    ((b[0] as int * 0x100 + b[1] as int) * 0x100 + b[2] as int) * 0x100 + b[3] as int
  }

  lemma {:induction false} LengthBack(n: nat)
    requires n < LengthBound
    ensures Length(BigEndian(n)) == n
  {
  }

  datatype Frame = Frame(name: Bytes, digest: Bytes)

  function FrameOf(a: Asset, codec: Codec): Frame { Frame(codec.encode(a.name), codec.hash(a.content)) }

  function Written(f: Frame): Bytes { BigEndian(|f.name|) + f.name + f.digest }

  /** Frames one after the other. */
  function Stream(fs: seq<Frame>): Bytes {
    if fs == [] then [] else Written(fs[0]) + Stream(fs[1..])
  }

  /** Reads a stream back into its frames. */
  function Frames(b: Bytes): Option<seq<Frame>>
    decreases |b|
  {
    if b == [] then Some([])
    else if |b| < 4 || |b| < 4 + Length(b[..4]) + DigestLength then None
    else
      var n := Length(b[..4]);
      var rest := Frames(b[4 + n + DigestLength..]);
      if rest.None? then None else Some([Frame(b[4..4 + n], b[4 + n..4 + n + DigestLength])] + rest.value)
  }

  ghost predicate Framed(fs: seq<Frame>) {
    forall f | f in fs :: |f.name| < LengthBound && |f.digest| == DigestLength
  }

  /** The framing is uniquely decodable. */
  lemma {:induction false} FramesBack(fs: seq<Frame>)
    requires Framed(fs)
    ensures Frames(Stream(fs)) == Some(fs)
  {
    if fs != [] {
      var f, gs := fs[0], fs[1..];
      assert f in fs && fs == [f] + gs;
      assert Framed(gs) by {
        assert forall g | g in gs :: g in fs;
      }
      FramesBack(gs);
      FramesStep(f, Stream(gs), gs);
    }
  }

  lemma {:induction false} FramesStep(f: Frame, rest: Bytes, gs: seq<Frame>)
    requires |f.name| < LengthBound && |f.digest| == DigestLength && Frames(rest) == Some(gs)
    ensures Frames(Written(f) + rest) == Some([f] + gs)
  {
    FrameParts(f, rest);
  }

  lemma {:induction false} FrameParts(f: Frame, rest: Bytes)
    requires |f.name| < LengthBound && |f.digest| == DigestLength
    ensures var b, n := Written(f) + rest, |f.name|;
            && |b| >= 4 + n + DigestLength && Length(b[..4]) == n
            && b[4..4 + n] == f.name && b[4 + n..4 + n + DigestLength] == f.digest && b[4 + n + DigestLength..] == rest
  {
    var b := Written(f) + rest;
    assert b[..4] == BigEndian(|f.name|);
    LengthBack(|f.name|);
  }

  // ----- the pre-image of the assets digest

  function FramesOf(assets: seq<Asset>, codec: Codec): seq<Frame> {
    if assets == [] then [] else [FrameOf(assets[0], codec)] + FramesOf(assets[1..], codec)
  }

  /** Every encoded name is short enough for its four-byte length. */
  predicate Short(assets: seq<Asset>, codec: Codec) {
    forall a | a in assets :: |codec.encode(a.name)| < LengthBound
  }

  function ByName(assets: seq<Asset>): seq<Asset> { Sort(assets, Earlier) }

  /** The assets there are, by strictly rising name. */
  lemma {:induction false} ByNameExactly(assets: seq<Asset>)
    requires Named(assets)
    ensures |ByName(assets)| == |assets| && (forall a :: a in ByName(assets) <==> a in assets)
    ensures forall i, j | 0 <= i < j < |assets| :: Before(ByName(assets)[i].name, ByName(assets)[j].name)
  {
    EarlierStrict();
    NamedTotal(assets);
    NamedDistinct(assets);
    SortSorted(assets, Earlier);
    forall i, j | 0 <= i < j < |assets|
      ensures Earlier(ByName(assets)[i], ByName(assets)[j])
    {
      SortedAt(ByName(assets), Earlier, i, j);
    }
  }

  lemma {:induction false} FramesShort(assets: seq<Asset>, codec: Codec)
    requires Short(assets, codec)
    ensures Proper(codec) ==> Framed(FramesOf(assets, codec))
  {
    if assets != [] {
      assert forall a | a in assets[1..] :: a in assets;
      FramesShort(assets[1..], codec);
    }
  }

  /** What the digest is fed, or `None` when a name is too long for its length field. */
  function PreImage(assets: seq<Asset>, codec: Codec): Option<Bytes> {
    var sorted := ByName(assets);
    if Short(sorted, codec) then Some(Stream(FramesOf(sorted, codec))) else None
  }

  lemma {:induction false} StreamSnoc(fs: seq<Frame>, f: Frame)
    ensures Stream(fs + [f]) == Stream(fs) + Written(f)
  {
    if fs == [] {
      assert fs + [f] == [f] && [f][1..] == [];
    } else {
      var w, s, x := Written(fs[0]), Stream(fs[1..]), Written(f);
      assert (fs + [f])[0] == fs[0] && (fs + [f])[1..] == fs[1..] + [f];
      StreamSnoc(fs[1..], f);
      assert w + (s + x) == w + s + x;
    }
  }

  lemma {:induction false} FramesSnoc(assets: seq<Asset>, a: Asset, codec: Codec)
    ensures FramesOf(assets + [a], codec) == FramesOf(assets, codec) + [FrameOf(a, codec)]
  {
    if assets == [] {
      assert assets + [a] == [a] && [a][1..] == [];
    } else {
      assert (assets + [a])[0] == assets[0] && (assets + [a])[1..] == assets[1..] + [a];
      FramesSnoc(assets[1..], a, codec);
    }
  }

  /** `fed` after the first `k` assets, for every `k`. */
  ghost predicate FedBy(fed: nat -> Bytes, frame: nat -> Bytes, n: nat) {
    fed(0) == [] && forall k | 0 <= k < n :: fed(k + 1) == fed(k) + frame(k)
  }

  ghost function FedUpTo(sorted: seq<Asset>, codec: Codec): nat -> Bytes {
    (k: nat) => if k <= |sorted| then Stream(FramesOf(sorted[..k], codec)) else []
  }

  ghost function FrameAt(sorted: seq<Asset>, codec: Codec): nat -> Bytes {
    (k: nat) => if k < |sorted| then Written(FrameOf(sorted[k], codec)) else []
  }

  lemma {:induction false} FedInFrames(sorted: seq<Asset>, codec: Codec)
    ensures FedBy(FedUpTo(sorted, codec), FrameAt(sorted, codec), |sorted|)
  {
    forall k | 0 <= k < |sorted|
      ensures FedUpTo(sorted, codec)(k + 1) == FedUpTo(sorted, codec)(k) + FrameAt(sorted, codec)(k)
    {
      assert sorted[..k + 1] == sorted[..k] + [sorted[k]];
      FramesSnoc(sorted[..k], sorted[k], codec);
      StreamSnoc(FramesOf(sorted[..k], codec), FrameOf(sorted[k], codec));
    }
  }

  /** The three updates of the hash object for asset `k`. */
  method Feed(fed: Bytes, sorted: seq<Asset>, k: nat, codec: Codec, ghost frame: nat -> Bytes) returns (more: Bytes)
    requires k < |sorted| && Agree(frame, FrameAt(sorted, codec))
    ensures more == fed + frame(k)
  {
    var name, digest := codec.encode(sorted[k].name), codec.hash(sorted[k].content);
    more := fed + BigEndian(|name|);
    more := more + name;
    more := more + digest;
    assert At(k);
    assert fed + (BigEndian(|name|) + name + digest) == more;
  }

  /** The loop of `_assets_digest`: the hash object is fed length, name and content hash of each asset. */
  method FeedAll(sorted: seq<Asset>, codec: Codec, ghost fed: nat -> Bytes, ghost frame: nat -> Bytes)
    returns (bytes: Bytes, k: nat)
    requires FedBy(fed, frame, |sorted|) && Agree(frame, FrameAt(sorted, codec))
    ensures k <= |sorted| && bytes == fed(k)
    ensures forall i | 0 <= i < k :: |codec.encode(sorted[i].name)| < LengthBound
    ensures k < |sorted| ==> |codec.encode(sorted[k].name)| >= LengthBound
  {
    bytes, k := [], 0;
    while k < |sorted| && |codec.encode(sorted[k].name)| < LengthBound
      invariant k <= |sorted| && bytes == fed(k)
      invariant forall i | 0 <= i < k :: |codec.encode(sorted[i].name)| < LengthBound
    {
      bytes := Feed(bytes, sorted, k, codec, frame);
      k := k + 1;
    }
  }

  /** `_assets_digest`: assets in name order; a name that is too long for its length field is an error. */
  method AssetsDigest(assets: seq<Asset>, codec: Codec) returns (r: Option<Bytes>)
    ensures r == if PreImage(assets, codec).Some? then Some(DigestText(codec.hash(PreImage(assets, codec).value))) else None
  {
    var sorted := ByName(assets);
    FedInFrames(sorted, codec);
    var fed, k := FeedAll(sorted, codec, FedUpTo(sorted, codec), FrameAt(sorted, codec));
    assert sorted[..|sorted|] == sorted;
    if k < |sorted| {
      assert sorted[k] in sorted;
      return None;
    }
    return Some(DigestText(codec.hash(fed)));
  }

  /** The order in which the assets were listed does not matter. */
  lemma {:induction false} OrderIndependent(a: seq<Asset>, b: seq<Asset>, codec: Codec)
    requires Named(a) && Named(b) && forall x :: x in a <==> x in b
    ensures PreImage(a, codec) == PreImage(b, codec)
  {
    EarlierStrict();
    NamedTotal(a);
    NamedDistinct(a);
    NamedDistinct(b);
    SortUnique(a, b, Earlier);
  }

  /** Decoding the pre-image gives back the encoded name and content hash of every asset, in name order. */
  lemma {:induction false} PreImageDecodes(assets: seq<Asset>, codec: Codec)
    requires Proper(codec) && PreImage(assets, codec).Some?
    ensures Frames(PreImage(assets, codec).value) == Some(FramesOf(ByName(assets), codec))
  {
    FramesShort(ByName(assets), codec);
    FramesBack(FramesOf(ByName(assets), codec));
  }

  lemma {:induction false} FrameMembers(assets: seq<Asset>, codec: Codec, f: Frame)
    ensures f in FramesOf(assets, codec) <==> exists a :: a in assets && FrameOf(a, codec) == f
  {
    if assets != [] {
      FrameMembers(assets[1..], codec, f);
      assert forall a :: a in assets <==> a == assets[0] || a in assets[1..];
    }
  }

  /** Equal pre-images come from packages with the same names and, under each name, the same content hash. */
  lemma {:induction false} PreImageDetermines(a: seq<Asset>, b: seq<Asset>, codec: Codec, x: Asset)
    requires Proper(codec) && PreImage(a, codec).Some? && PreImage(a, codec) == PreImage(b, codec) && x in a
    ensures exists y :: y in b && y.name == x.name && codec.hash(y.content) == codec.hash(x.content)
  {
    PreImageDecodes(a, codec);
    PreImageDecodes(b, codec);
    var f := FrameOf(x, codec);
    FrameMembers(ByName(a), codec, f);
    assert x in ByName(a);
    FrameMembers(ByName(b), codec, f);
    var y :| y in ByName(b) && FrameOf(y, codec) == f;
    assert y in b && codec.encode(y.name) == codec.encode(x.name);
  }

  // ----- digest text and signed material

  function HexDigit(n: nat): Byte
    requires n < 16
  {
    if n < 10 then (48 + n) as Byte else (87 + n) as Byte
  }

  function Hex(b: Bytes): Bytes {
    if b == [] then [] else [HexDigit(b[0] as int / 16), HexDigit(b[0] as int % 16)] + Hex(b[1..])
  }

  /** The characters `sha256:`. */
  const Prefix: Bytes := [115, 104, 97, 50, 53, 54, 58]

  function DigestText(digest: Bytes): Bytes { Prefix + Hex(digest) }

  const TextLength := 71

  lemma {:induction false} HexLength(b: Bytes)
    ensures |Hex(b)| == 2 * |b|
  {
    if b != [] {
      HexLength(b[1..]);
    }
  }

  lemma {:induction false} HexDigitOnce(m: nat, n: nat)
    requires m < 16 && n < 16 && HexDigit(m) == HexDigit(n)
    ensures m == n
  {
  }

  lemma {:induction false} HexOnce(a: Bytes, b: Bytes)
    requires Hex(a) == Hex(b)
    ensures a == b
  {
    HexLength(a);
    HexLength(b);
    if a != [] {
      var x, y := Hex(a), Hex(b);
      assert x[0] == y[0] && x[1] == y[1];
      HexDigitOnce(a[0] as int / 16, b[0] as int / 16);
      HexDigitOnce(a[0] as int % 16, b[0] as int % 16);
      assert x[2..] == Hex(a[1..]) && y[2..] == Hex(b[1..]);
      HexOnce(a[1..], b[1..]);
      assert a == [a[0]] + a[1..] && b == [b[0]] + b[1..];
    }
  }

  /** The bytes that are signed: manifest, image digest and assets digest on separate lines. */
  function Material(manifest: Bytes, image: Bytes, assets: Bytes): Bytes {
    manifest + [10] + DigestText(image) + [10] + DigestText(assets)
  }

  /** The manifest may contain line feeds; the two digests are found from the end. */
  function Parts(material: Bytes): Option<(Bytes, Bytes, Bytes)> {
    var n := |material|;
    if n < 2 * TextLength + 2 || material[n - TextLength - 1] != 10 || material[n - 2 * TextLength - 2] != 10 then None
    else Some((material[..n - 2 * TextLength - 2], material[n - 2 * TextLength - 1..n - TextLength - 1], material[n - TextLength..]))
  }

  lemma {:induction false} PartsBack(manifest: Bytes, image: Bytes, assets: Bytes)
    requires |image| == DigestLength && |assets| == DigestLength
    ensures Parts(Material(manifest, image, assets)) == Some((manifest, DigestText(image), DigestText(assets)))
  {
    HexLength(image);
    HexLength(assets);
    var i, a := DigestText(image), DigestText(assets);
    SuffixParts(manifest, i, a);
  }

  lemma {:induction false} SuffixParts(m: Bytes, i: Bytes, a: Bytes)
    requires |i| == TextLength && |a| == TextLength
    ensures Parts(m + [10] + i + [10] + a) == Some((m, i, a))
  {
    var b, k := m + [10] + i + [10] + a, |m|;
    assert b[k] == 10 && b[k + TextLength + 1] == 10;
    assert b[..k] == m && b[k + 1..k + TextLength + 1] == i && b[k + TextLength + 2..] == a;
  }

  /** The signed bytes determine the manifest bytes and both digests. */
  lemma {:induction false} MaterialDetermines(m: Bytes, i: Bytes, a: Bytes, m': Bytes, i': Bytes, a': Bytes)
    requires |i| == DigestLength && |a| == DigestLength && |i'| == DigestLength && |a'| == DigestLength
    requires Material(m, i, a) == Material(m', i', a')
    ensures m == m' && i == i' && a == a'
  {
    PartsBack(m, i, a);
    PartsBack(m', i', a');
    TextOnce(i, i');
    TextOnce(a, a');
  }

  lemma {:induction false} TextOnce(a: Bytes, b: Bytes)
    requires DigestText(a) == DigestText(b)
    ensures a == b
  {
    assert DigestText(a)[|Prefix|..] == Hex(a) && DigestText(b)[|Prefix|..] == Hex(b);
    HexOnce(a, b);
  }
}
