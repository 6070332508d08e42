/** A package is a payload and, behind it, a footer of two blocks: how one is written, and how it is read. */
module Package {
  import opened Prelude

  newtype Byte = x: int | 0 <= x < 256

  const FOOTER_SIZE := 512
  const BLOCK_SIZE := 256
  const COVERED := 252
  const FORMAT := 1
  const NONCE_SIZE := 12
  const TAG_SIZE := 16
  const SEAL_KEY := 32
  const MAGIC: seq<Byte> := [0x59, 0x4F, 0x4B, 0x45, 0x50, 0x4B, 0x47, 0x31]

  const HASH_SHA256: Byte := 1
  const SIG_NONE: Byte := 0
  const SEAL_NONE: Byte := 0
  const SEAL_AES256GCM: Byte := 1

  const TWO_16 := 0x1_0000
  const TWO_32 := 0x1_0000_0000

  type Uint16 = n: int | 0 <= n < TWO_16

  // ----- Numbers, little end first -----

  function Put(n: nat, size: nat): (r: seq<Byte>)
    ensures |r| == size
  {
    if size == 0 then [] else [(n % 256) as Byte] + Put(n / 256, size - 1)
  }

  function Get(s: seq<Byte>): nat {
    if s == [] then 0 else s[0] as int + 256 * Get(s[1..])
  }

  function Power(k: nat): (r: nat)
    ensures r > 0
  {
    if k == 0 then 1 else 256 * Power(k - 1)
  }

  lemma {:induction false} GetPut(n: nat, size: nat)
    requires n < Power(size)
    ensures Get(Put(n, size)) == n
  {
    if size > 0 {
      GetPut(n / 256, size - 1);
      assert Put(n, size)[1..] == Put(n / 256, size - 1);
    }
  }

  lemma {:induction false} PutGet(s: seq<Byte>)
    ensures Get(s) < Power(|s|) && Put(Get(s), |s|) == s
  {
    if s != [] {
      PutGet(s[1..]);
      Digits(s[0] as int, Get(s[1..]));
      assert s == [s[0]] + s[1..];
    }
  }

  lemma Digits(low: nat, high: nat)
    requires low < 256
    ensures (low + 256 * high) % 256 == low && (low + 256 * high) / 256 == high
  {
  }

  lemma Powers()
    ensures Power(2) == TWO_16 && Power(4) == TWO_32 && Power(8) == TWO_64
  {
    assert Power(1) == 256;
    assert Power(3) == 0x100_0000;
    assert Power(5) == 0x100_0000_0000;
    assert Power(6) == 0x1_0000_0000_0000;
    assert Power(7) == 0x100_0000_0000_0000;
  }

  /** What 64 bits hold of a number: its two's complement, where that is wide enough. */
  function Unsigned(n: int): Uint64 { n % TWO_64 }

  lemma SignedReads(n: int)
    ensures Signed(Unsigned(n)) == n <==> -TWO_63 <= n < TWO_63
    ensures Unsigned(Signed(Unsigned(n))) == Unsigned(n)
  {
  }

  // ----- Metadata -----

  /** `builtAt` counts nanoseconds, of any time there is. */
  datatype Meta = Meta(
    model: Uint16,
    hashId: Byte,
    sigId: Byte,
    sealId: Byte,
    payloadSize: Uint64,
    builtAt: int,
    digest: seq<Byte>,
    keyId: seq<Byte>,
    texts: seq<seq<Byte>>
  )

  datatype Field = Field(name: string, at: nat, width: nat)

  /** Offsets and widths of the fields that hold text. */
  const FIELDS: seq<Field> := [Field("id", 104, 48), Field("version", 152, 32), Field("arch", 184, 12),
                               Field("core", 196, 24)]

  /** What must be zero in format 1. */
  const RESERVED: seq<(nat, nat)> := [(17, 24), (220, 252)]

  ghost predicate WellFormed(m: Meta) {
    && |m.digest| == 32 && |m.keyId| == 32 && |m.texts| == 4
    && forall i :: 0 <= i < 4 ==> |m.texts[i]| <= FIELDS[i].width
  }

  function Zeros(n: nat): (r: seq<Byte>)
    ensures |r| == n && forall i :: 0 <= i < n ==> r[i] == 0
  {
    seq(n, _ => 0)
  }

  function Head(m: Meta): (r: seq<Byte>)
    ensures |r| == 17
  {
    MAGIC + Put(FORMAT, 2) + Put(COVERED, 2) + Put(m.model, 2) + [m.hashId, m.sigId, m.sealId]
  }

  function Fixed(m: Meta): (r: seq<Byte>)
    requires WellFormed(m)
    ensures |r| == 104
  {
    Head(m) + Zeros(7) + Put(m.payloadSize, 8) + Put(Unsigned(m.builtAt), 8) + m.digest + m.keyId
  }

  function Padded(v: seq<Byte>, width: nat): (r: seq<Byte>)
    requires |v| <= width
    ensures |r| == width
  {
    v + Zeros(width - |v|)
  }

  /** What the checksum covers: every field at its place and zeros elsewhere. */
  function Covered(m: Meta): (r: seq<Byte>)
    requires WellFormed(m)
    ensures |r| == COVERED
  {
    Fixed(m) + Padded(m.texts[0], 48) + Padded(m.texts[1], 32) + Padded(m.texts[2], 12) + Padded(m.texts[3], 24)
      + Zeros(32)
  }

  function Encoded(m: Meta, crc: seq<Byte> -> nat): (r: seq<Byte>)
    requires WellFormed(m)
    ensures |r| == BLOCK_SIZE
  {
    Covered(m) + Put(crc(Covered(m)), 4)
  }

  // ----- What is where -----

  ghost predicate Layout(b: seq<Byte>, m: Meta, crc: seq<Byte> -> nat) {
    && WellFormed(m) && |b| == BLOCK_SIZE
    && b[0..8] == MAGIC && b[8..10] == Put(FORMAT, 2) && b[10..12] == Put(COVERED, 2) && b[12..14] == Put(m.model, 2)
    && b[14] == m.hashId && b[15] == m.sigId && b[16] == m.sealId && b[17..24] == Zeros(7)
    && b[24..32] == Put(m.payloadSize, 8) && b[32..40] == Put(Unsigned(m.builtAt), 8)
    && b[40..72] == m.digest && b[72..104] == m.keyId
    && b[104..152] == Padded(m.texts[0], 48) && b[152..184] == Padded(m.texts[1], 32)
    && b[184..196] == Padded(m.texts[2], 12) && b[196..220] == Padded(m.texts[3], 24)
    && b[220..252] == Zeros(32) && b[252..256] == Put(crc(b[..COVERED]), 4)
  }

  lemma HeadLayout(m: Meta)
    ensures var b := Head(m);
            && b[0..8] == MAGIC && b[8..10] == Put(FORMAT, 2) && b[10..12] == Put(COVERED, 2)
            && b[12..14] == Put(m.model, 2)
            && b[14] == m.hashId && b[15] == m.sigId && b[16] == m.sealId
  {
    hide Put;
  }

  lemma FixedLayout(m: Meta)
    requires WellFormed(m)
    ensures var b := Fixed(m);
            && b[..17] == Head(m) && b[17..24] == Zeros(7)
            && b[24..32] == Put(m.payloadSize, 8) && b[32..40] == Put(Unsigned(m.builtAt), 8)
            && b[40..72] == m.digest && b[72..104] == m.keyId
  {
    hide Put, Head, Zeros;
  }

  lemma CoveredLayout(m: Meta)
    requires WellFormed(m)
    ensures var b := Covered(m);
            && b[..104] == Fixed(m)
            && b[104..152] == Padded(m.texts[0], 48) && b[152..184] == Padded(m.texts[1], 32)
            && b[184..196] == Padded(m.texts[2], 12) && b[196..220] == Padded(m.texts[3], 24)
            && b[220..252] == Zeros(32)
  {
    hide Fixed, Padded, Zeros;
  }

  lemma Within(a: seq<Byte>, b: seq<Byte>, n: nat, lo: nat, hi: nat)
    requires n <= |b| && b[..n] == a && lo <= hi <= n
    ensures b[lo..hi] == a[lo..hi]
  {
  }

  /** The fields, the reserved ranges and the checksum never overlap: each is found where it was put. */
  lemma EncodedLayout(m: Meta, crc: seq<Byte> -> nat)
    requires WellFormed(m)
    ensures Layout(Encoded(m, crc), m, crc)
  {
    hide Head, Fixed, Covered, Padded, Put, Zeros;
    var h, f, c, b := Head(m), Fixed(m), Covered(m), Encoded(m, crc);
    HeadLayout(m);
    FixedLayout(m);
    CoveredLayout(m);
    assert b[..252] == c;
    assert b[..104] == f by { Within(c, b, 252, 0, 104); }
    assert b[..17] == h by { Within(f, b, 104, 0, 17); }
    Within(c, b, 252, 104, 152);
    Within(c, b, 252, 152, 184);
    Within(c, b, 252, 184, 196);
    Within(c, b, 252, 196, 220);
    Within(c, b, 252, 220, 252);
    Within(f, b, 104, 17, 24);
    Within(f, b, 104, 24, 32);
    Within(f, b, 104, 32, 40);
    Within(f, b, 104, 40, 72);
    Within(f, b, 104, 72, 104);
    Within(h, b, 17, 0, 8);
    Within(h, b, 17, 8, 10);
    Within(h, b, 17, 10, 12);
    Within(h, b, 17, 12, 14);
    assert b[..17][14] == b[14] && b[..17][15] == b[15] && b[..17][16] == b[16];
  }

  lemma Pieces(b: seq<Byte>, lo: nat, mid: nat, hi: nat)
    requires lo <= mid <= hi <= |b|
    ensures b[lo..hi] == b[lo..mid] + b[mid..hi]
  {
  }

  /** What has the layout of a metadata block is that block. */
  lemma LayoutIsEncoded(b: seq<Byte>, m: Meta, crc: seq<Byte> -> nat)
    requires Layout(b, m, crc)
    ensures b == Encoded(m, crc)
  {
    hide Padded, Put, Zeros;
    Pieces(b, 0, 8, 10);
    Pieces(b, 0, 10, 12);
    Pieces(b, 0, 12, 14);
    assert b[14..17] == [m.hashId, m.sigId, m.sealId];
    Pieces(b, 0, 14, 17);
    assert b[0..17] == Head(m);
    Pieces(b, 0, 17, 24);
    Pieces(b, 0, 24, 32);
    Pieces(b, 0, 32, 40);
    Pieces(b, 0, 40, 72);
    Pieces(b, 0, 72, 104);
    assert b[0..104] == Fixed(m);
    Pieces(b, 0, 104, 152);
    Pieces(b, 0, 152, 184);
    Pieces(b, 0, 184, 196);
    Pieces(b, 0, 196, 220);
    Pieces(b, 0, 220, 252);
    assert b[0..252] == Covered(m) && b[..COVERED] == b[0..252];
    Pieces(b, 0, 252, 256);
    assert b[0..256] == b;
  }

  // ----- Writing and reading, in one piece each -----

  datatype Kind = NotAPackage | Damaged | Unreadable | Seal | Digest | Unproducible | Failed

  datatype Refusal = Refusal(kind: Kind, field: string)

  /** The digest, the checksum, the seal and the test for UTF-8 the format is built on. */
  datatype Suite = Suite(
    hash: seq<Byte> -> seq<Byte>,
    crc: seq<Byte> -> nat,
    seal: (seq<Byte>, seq<Byte>, seq<Byte>) -> seq<Byte>,
    unseal: (seq<Byte>, seq<Byte>, seq<Byte>) -> Option<seq<Byte>>,
    utf8: seq<Byte> -> bool
  )

  /** What is assumed of them: their sizes, and that a seal opens with its own credential. */
  ghost predicate Assumed(c: Suite) {
    && (forall x :: |c.hash(x)| == 32)
    && (forall x :: c.crc(x) < TWO_32)
    && (forall key, nonce, p :: |c.seal(key, nonce, p)| == |p| + TAG_SIZE)
    && (forall key, nonce, p :: c.unseal(key, nonce, c.seal(key, nonce, p)) == Some(p))
  }

  /** A key a package is signed with: the identifiers of its algorithm and of itself, and what it makes of a
      metadata block. An algorithm the format does not name has no identifier. */
  datatype Signer = Signer(algorithm: Option<Byte>, keyId: seq<Byte>, sign: seq<Byte> -> Option<seq<Byte>>)

  datatype Options = Options(
    model: Uint16,
    texts: seq<seq<Byte>>,
    builtAt: int,
    seal: Option<seq<Byte>>,
    sign: Option<Signer>
  )

  predicate Given(o: Options) {
    |o.texts| == 4 && (o.sign.Some? ==> |o.sign.value.keyId| == 32)
  }

  function Region(c: Suite, payload: seq<Byte>, o: Options, nonce: seq<Byte>): seq<Byte> {
    if o.seal.Some? then nonce + c.seal(o.seal.value, nonce, payload) else payload
  }

  /** A file's size is a signed 64-bit number. */
  predicate Holdable(c: Suite, payload: seq<Byte>, o: Options, nonce: seq<Byte>) {
    |Region(c, payload, o, nonce)| + FOOTER_SIZE < TWO_63
  }

  function MetaOf(c: Suite, payload: seq<Byte>, o: Options, nonce: seq<Byte>): Meta
    requires Holdable(c, payload, o, nonce)
    requires o.sign.Some? ==> o.sign.value.algorithm.Some?
  {
    Meta(o.model, HASH_SHA256,
         if o.sign.Some? then o.sign.value.algorithm.value else SIG_NONE,
         if o.seal.Some? then SEAL_AES256GCM else SEAL_NONE,
         |Region(c, payload, o, nonce)|, o.builtAt, c.hash(payload),
         if o.sign.Some? then o.sign.value.keyId else Zeros(32), o.texts)
  }

  function TooWide(texts: seq<seq<Byte>>, i: nat): Option<nat>
    requires |texts| == 4 && i <= 4
    decreases 4 - i
  {
    if i == 4 then None else if |texts[i]| > FIELDS[i].width then Some(i) else TooWide(texts, i + 1)
  }

  /** A signature in its block, cut where it is longer. */
  function SigBlock(s: seq<Byte>): (r: seq<Byte>)
    ensures |r| == BLOCK_SIZE
  {
    if |s| >= BLOCK_SIZE then s[..BLOCK_SIZE] else s + Zeros(BLOCK_SIZE - |s|)
  }

  ghost function Packed(c: Suite, payload: seq<Byte>, o: Options, nonce: seq<Byte>): Result<seq<Byte>, Refusal>
    requires Assumed(c) && Given(o) && Holdable(c, payload, o, nonce)
  {
    var wide := TooWide(o.texts, 0);
    if wide.Some? then Err(Refusal(Unproducible, FIELDS[wide.value].name))
    else if o.seal.Some? && |o.seal.value| != SEAL_KEY then Err(Refusal(Unproducible, "seal"))
    else if o.sign.Some? && o.sign.value.algorithm == None then Err(Refusal(Unproducible, "sig_id"))
    else
      NoneTooWide(o.texts, 0);
      var block := Encoded(MetaOf(c, payload, o, nonce), c.crc);
      var region := Region(c, payload, o, nonce);
      match o.sign
      case None => Ok(region + Zeros(BLOCK_SIZE) + block)
      case Some(key) =>
        match key.sign(block)
        case None => Err(Refusal(Failed, ""))
        case Some(s) => Ok(region + SigBlock(s) + block)
  }

  lemma {:induction false} NoneTooWide(texts: seq<seq<Byte>>, i: nat)
    requires |texts| == 4 && i <= 4
    ensures TooWide(texts, i) == None ==> forall k :: i <= k < 4 ==> |texts[k]| <= FIELDS[k].width
    ensures TooWide(texts, i).Some? ==> i <= TooWide(texts, i).value < 4
    decreases 4 - i
  {
    if i < 4 { NoneTooWide(texts, i + 1); }
  }

  function TrimZeros(v: seq<Byte>): (r: seq<Byte>)
    ensures |r| <= |v|
  {
    if v != [] && v[|v| - 1] == 0 then TrimZeros(v[..|v| - 1]) else v
  }

  lemma {:induction false} TrimShape(v: seq<Byte>)
    ensures var r := TrimZeros(v);
            && r == v[..|r|] && (r != [] ==> r[|r| - 1] != 0)
            && v[|r|..] == Zeros(|v| - |r|)
  {
    if v != [] && v[|v| - 1] == 0 {
      var front := v[..|v| - 1];
      TrimShape(front);
      assert v == front + [0];
      assert v[|TrimZeros(v)|..] == front[|TrimZeros(v)|..] + [0];
    }
  }

  lemma {:induction false} TrimZerosAfter(r: seq<Byte>, k: nat)
    ensures TrimZeros(r + Zeros(k)) == TrimZeros(r)
  {
    if k == 0 {
      assert r + Zeros(0) == r;
    } else {
      TrimZerosAfter(r, k - 1);
      var v := r + Zeros(k);
      assert v[..|v| - 1] == r + Zeros(k - 1) && v[|v| - 1] == 0;
    }
  }

  datatype Footer = Footer(meta: Meta, block: seq<Byte>, sig: seq<Byte>)

  function TextAt(b: seq<Byte>, i: nat): seq<Byte>
    requires |b| == BLOCK_SIZE && i < 4
  {
    TrimZeros(b[FIELDS[i].at..FIELDS[i].at + FIELDS[i].width])
  }

  function NotText(c: Suite, b: seq<Byte>, i: nat): (r: Option<nat>)
    requires |b| == BLOCK_SIZE && i <= 4
    ensures r.Some? ==> r.value < 4
    decreases 4 - i
  {
    if i == 4 then None else if !c.utf8(TextAt(b, i)) then Some(i) else NotText(c, b, i + 1)
  }

  function Decoded(b: seq<Byte>): Meta
    requires |b| == BLOCK_SIZE
  {
    PutGet(b[12..14]);
    PutGet(b[24..32]);
    PutGet(b[32..40]);
    Powers();
    Meta(Get(b[12..14]), b[14], b[15], b[16], Get(b[24..32]), Signed(Get(b[32..40])), b[40..72], b[72..104],
         [TextAt(b, 0), TextAt(b, 1), TextAt(b, 2), TextAt(b, 3)])
  }

  ghost function Read(c: Suite, file: seq<Byte>): Result<Footer, Refusal> {
    if |file| < FOOTER_SIZE then Err(Refusal(NotAPackage, ""))
    else
      var sig, b := file[|file| - FOOTER_SIZE..|file| - BLOCK_SIZE], file[|file| - BLOCK_SIZE..];
      if b[0..8] != MAGIC then Err(Refusal(NotAPackage, "magic"))
      else if Get(b[8..10]) != FORMAT then Err(Refusal(NotAPackage, "format"))
      else if Get(b[10..12]) != COVERED then Err(Refusal(Unreadable, "header_len"))
      else if Get(b[252..256]) != c.crc(b[..COVERED]) then Err(Refusal(Damaged, "crc32"))
      else if b[17..24] != Zeros(7) || b[220..252] != Zeros(32) then Err(Refusal(Unreadable, "reserved"))
      else if NotText(c, b, 0).Some? then Err(Refusal(Damaged, FIELDS[NotText(c, b, 0).value].name))
      else if Get(b[24..32]) != |file| - FOOTER_SIZE then Err(Refusal(Damaged, "payload_size"))
      else Ok(Footer(Decoded(b), b, sig))
  }

  ghost function Opened(c: Suite, f: Footer, file: seq<Byte>,
                        credential: Option<seq<Byte>>): Result<seq<Byte>, Refusal> {
    if f.meta.payloadSize > |file| then Err(Refusal(Failed, ""))
    else
      var region := file[..f.meta.payloadSize];
      var payload :=
        if f.meta.sealId != SEAL_AES256GCM then Ok(region)
        else if credential == None || |credential.value| != SEAL_KEY then Err(Refusal(Seal, "seal_id"))
        else if |region| < NONCE_SIZE + TAG_SIZE then Err(Refusal(Damaged, "payload_size"))
        else match c.unseal(credential.value, region[..NONCE_SIZE], region[NONCE_SIZE..])
          case None => Err(Refusal(Seal, "seal_id"))
          case Some(p) => Ok(p);
      if payload.Ok? && c.hash(payload.value) != f.meta.digest then Err(Refusal(Digest, "digest")) else payload
  }

  // ----- What is written is read -----

  ghost function Trimmed(m: Meta): Meta
    requires |m.texts| == 4
  {
    m.(builtAt := Signed(Unsigned(m.builtAt)),
       texts := [TrimZeros(m.texts[0]), TrimZeros(m.texts[1]), TrimZeros(m.texts[2]), TrimZeros(m.texts[3])])
  }

  lemma LayoutDecodes(b: seq<Byte>, m: Meta, crc: seq<Byte> -> nat)
    requires Layout(b, m, crc)
    ensures Decoded(b) == Trimmed(m)
    ensures forall i :: 0 <= i < 4 ==> TextAt(b, i) == TrimZeros(m.texts[i])
  {
    hide Put, Get, TrimZeros, Zeros;
    Powers();
    GetPut(m.model, 2);
    GetPut(m.payloadSize, 8);
    GetPut(Unsigned(m.builtAt), 8);
    TrimZerosAfter(m.texts[0], 48 - |m.texts[0]|);
    TrimZerosAfter(m.texts[1], 32 - |m.texts[1]|);
    TrimZerosAfter(m.texts[2], 12 - |m.texts[2]|);
    TrimZerosAfter(m.texts[3], 24 - |m.texts[3]|);
  }

  ghost predicate ReadsAs(c: Suite, texts: seq<seq<Byte>>, i: nat)
    requires |texts| == 4 && i <= 4
  {
    forall k :: i <= k < 4 ==> c.utf8(TrimZeros(texts[k]))
  }

  /** The first text field that, its trailing zeros taken off, is not UTF-8. */
  ghost function FirstNotText(c: Suite, texts: seq<seq<Byte>>, i: nat): (r: Option<nat>)
    requires |texts| == 4 && i <= 4
    ensures r.Some? ==> i <= r.value < 4 && !c.utf8(TrimZeros(texts[r.value]))
    ensures r.Some? ==> forall k :: i <= k < r.value ==> c.utf8(TrimZeros(texts[k]))
    ensures r == None <==> ReadsAs(c, texts, i)
    decreases 4 - i
  {
    if i == 4 then None else if !c.utf8(TrimZeros(texts[i])) then Some(i) else FirstNotText(c, texts, i + 1)
  }

  lemma {:induction false} NotTextIsFirst(c: Suite, b: seq<Byte>, texts: seq<seq<Byte>>, i: nat)
    requires |b| == BLOCK_SIZE && |texts| == 4 && i <= 4
    requires forall k :: 0 <= k < 4 ==> TextAt(b, k) == TrimZeros(texts[k])
    ensures NotText(c, b, i) == FirstNotText(c, texts, i)
    decreases 4 - i
  {
    if i < 4 { NotTextIsFirst(c, b, texts, i + 1); }
  }

  lemma LayoutReads(c: Suite, region: seq<Byte>, sig: seq<Byte>, b: seq<Byte>, m: Meta)
    requires Layout(b, m, c.crc) && |sig| == BLOCK_SIZE && m.payloadSize == |region| && c.crc(b[..COVERED]) < TWO_32
    ensures Read(c, region + sig + b) ==
            match FirstNotText(c, m.texts, 0)
            case Some(i) => Err(Refusal(Damaged, FIELDS[i].name))
            case None => Ok(Footer(Trimmed(m), b, sig))
  {
    hide Put, Get, TrimZeros, Padded, Decoded, TextAt, NotText, FirstNotText, Zeros;
    var file := region + sig + b;
    assert file[|file| - BLOCK_SIZE..] == b && file[|file| - FOOTER_SIZE..|file| - BLOCK_SIZE] == sig;
    Powers();
    GetPut(FORMAT, 2);
    GetPut(COVERED, 2);
    GetPut(c.crc(b[..COVERED]), 4);
    GetPut(m.payloadSize, 8);
    LayoutDecodes(b, m, c.crc);
    NotTextIsFirst(c, b, m.texts, 0);
  }

  /** Reading the footer of a package just written: refused as damaged at the first text field that is not
      UTF-8, and otherwise the metadata written, trailing zero bytes of its text fields taken off and its time
      cut to 64 bits, with the blocks unchanged. */
  lemma WrittenIsRead(c: Suite, payload: seq<Byte>, o: Options, nonce: seq<Byte>)
    requires Assumed(c) && Given(o) && Holdable(c, payload, o, nonce) && Packed(c, payload, o, nonce).Ok?
    ensures o.sign.Some? ==> o.sign.value.algorithm.Some?
    ensures var file, m := Packed(c, payload, o, nonce).value, MetaOf(c, payload, o, nonce);
            match FirstNotText(c, o.texts, 0)
            case Some(i) => Read(c, file) == Err(Refusal(Damaged, FIELDS[i].name))
            case None =>
              && Read(c, file).Ok? && Read(c, file).value.meta == Trimmed(m)
              && WellFormed(m) && Read(c, file).value.block == Encoded(m, c.crc)
              && file == Region(c, payload, o, nonce) + Read(c, file).value.sig + Read(c, file).value.block
  {
    hide Encoded, Layout, Read, FirstNotText, Trimmed, SigBlock, Region;
    NoneTooWide(o.texts, 0);
    var m := MetaOf(c, payload, o, nonce);
    var b, region := Encoded(m, c.crc), Region(c, payload, o, nonce);
    EncodedLayout(m, c.crc);
    match o.sign
    case None => LayoutReads(c, region, Zeros(BLOCK_SIZE), b, m);
    case Some(key) => LayoutReads(c, region, SigBlock(key.sign(b).value), b, m);
  }

  ghost predicate NoTrailingZero(v: seq<Byte>) {
    v == [] || v[|v| - 1] != 0
  }

  /** The same metadata is read back exactly where every text field is UTF-8 and ends in no zero byte, and the
      time is one whose nanoseconds fit 64 bits. */
  lemma ReadsBackExactlyWhen(c: Suite, payload: seq<Byte>, o: Options, nonce: seq<Byte>)
    requires Assumed(c) && Given(o) && Holdable(c, payload, o, nonce) && Packed(c, payload, o, nonce).Ok?
    ensures o.sign.Some? ==> o.sign.value.algorithm.Some?
    ensures var read := Read(c, Packed(c, payload, o, nonce).value);
            read.Ok? && read.value.meta == MetaOf(c, payload, o, nonce)
            <==> -TWO_63 <= o.builtAt < TWO_63 && forall i :: 0 <= i < 4 ==>
                   c.utf8(o.texts[i]) && NoTrailingZero(o.texts[i])
  {
    hide Packed, Read, Region, Signed, Unsigned;
    WrittenIsRead(c, payload, o, nonce);
    SignedReads(o.builtAt);
    forall i | 0 <= i < 4
      ensures TrimZeros(o.texts[i]) == o.texts[i] <==> NoTrailingZero(o.texts[i])
    {
    }
    assert |o.texts| == 4 && o.texts == [o.texts[0], o.texts[1], o.texts[2], o.texts[3]];
  }

  /** A zero byte that ends an identifier is lost, and so is the time of a zero `time.Time`, the first instant of
      the year 1. */
  lemma SomeMetadataIsLost(c: Suite)
    requires Assumed(c) && c.utf8([65]) && c.utf8([])
    ensures var o := Options(1, [[65, 0], [], [], []], -62_135_596_800_000_000_000, None, None);
            && Given(o) && Holdable(c, [], o, []) && Packed(c, [], o, []).Ok?
            && var read := Read(c, Packed(c, [], o, []).value);
               read.Ok? && read.value.meta.texts == [[65], [], [], []]
                 && read.value.meta.builtAt == -6_795_364_578_871_345_152
  {
    hide Read, Encoded;
    var o := Options(1, [[65, 0], [], [], []], -62_135_596_800_000_000_000, None, None);
    assert TooWide(o.texts, 0) == None by {
      assert TooWide(o.texts, 3) == None;
    }
    var empty: seq<Byte> := [];
    assert [65, 0][..1] == [65] && TrimZeros([65]) == [65] && TrimZeros([65, 0]) == [65] && TrimZeros(empty) == [];
    WrittenIsRead(c, [], o, []);
    assert ReadsAs(c, o.texts, 0);
  }

  /** A package read back opens, with the credential it was sealed with, to the payload it was made of. */
  lemma OpensToThePayload(c: Suite, payload: seq<Byte>, o: Options, nonce: seq<Byte>)
    requires Assumed(c) && Given(o) && Holdable(c, payload, o, nonce) && |nonce| == NONCE_SIZE
    requires Packed(c, payload, o, nonce).Ok? && Read(c, Packed(c, payload, o, nonce).value).Ok?
    ensures var file := Packed(c, payload, o, nonce).value;
            Opened(c, Read(c, file).value, file, o.seal) == Ok(payload)
  {
    hide Read, FirstNotText, Encoded, SigBlock, Zeros;
    WrittenIsRead(c, payload, o, nonce);
    var file, region := Packed(c, payload, o, nonce).value, Region(c, payload, o, nonce);
    assert file[..|region|] == region;
    if o.seal.Some? {
      assert region[..NONCE_SIZE] == nonce && region[NONCE_SIZE..] == c.seal(o.seal.value, nonce, payload);
    }
  }

  /** A footer that is accepted is the only writing of its metadata: encoding what was read gives back the
      block byte for byte, and the payload region is all that precedes the footer. */
  lemma AcceptedIsCanonical(c: Suite, file: seq<Byte>)
    requires Assumed(c) && Read(c, file).Ok?
    ensures var f := Read(c, file).value;
            && WellFormed(f.meta) && f.block == Encoded(f.meta, c.crc)
            && file == file[..f.meta.payloadSize] + f.sig + f.block
  {
    hide Encoded, Put, Get, TrimZeros, NotText, Zeros;
    var f := Read(c, file).value;
    var b := f.block;
    PutGet(b[8..10]);
    PutGet(b[10..12]);
    PutGet(b[12..14]);
    PutGet(b[24..32]);
    PutGet(b[32..40]);
    PutGet(b[252..256]);
    Powers();
    TrimShape(b[104..152]);
    TrimShape(b[152..184]);
    TrimShape(b[184..196]);
    TrimShape(b[196..220]);
    assert Layout(b, f.meta, c.crc);
    LayoutIsEncoded(b, f.meta, c.crc);
    assert file == file[..|file| - FOOTER_SIZE] + file[|file| - FOOTER_SIZE..|file| - BLOCK_SIZE]
           + file[|file| - BLOCK_SIZE..];
  }

  // ----- What is refused, and as what -----

  lemma {:induction false} WideIsFirst(texts: seq<seq<Byte>>, i: nat)
    requires |texts| == 4 && i <= 4
    ensures match TooWide(texts, i)
            case None => forall k :: i <= k < 4 ==> |texts[k]| <= FIELDS[k].width
            case Some(j) =>
              i <= j < 4 && |texts[j]| > FIELDS[j].width && forall k :: i <= k < j ==> |texts[k]| <= FIELDS[k].width
    decreases 4 - i
  {
    if i < 4 { WideIsFirst(texts, i + 1); }
  }

  /** A package can be written exactly where its texts fit their fields, its credential has the length a seal needs,
      its key's algorithm has an identifier and signs; where not, the refusal names the first field that cannot be. */
  lemma WrittenExactlyWhen(c: Suite, payload: seq<Byte>, o: Options, nonce: seq<Byte>)
    requires Assumed(c) && Given(o) && Holdable(c, payload, o, nonce)
    ensures var p := Packed(c, payload, o, nonce);
            var fits := forall i :: 0 <= i < 4 ==> |o.texts[i]| <= FIELDS[i].width;
            var sealable := o.seal.Some? ==> |o.seal.value| == SEAL_KEY;
            var named := o.sign.Some? ==> o.sign.value.algorithm.Some?;
            && (p.Ok? <==> fits && sealable && named
                           && (o.sign.Some? ==> o.sign.value.sign(Encoded(MetaOf(c, payload, o, nonce), c.crc)).Some?))
            && (forall i :: 0 <= i < 4 && |o.texts[i]| > FIELDS[i].width
                            && (forall k :: 0 <= k < i ==> |o.texts[k]| <= FIELDS[k].width)
                            ==> p == Err(Refusal(Unproducible, FIELDS[i].name)))
            && (fits && !sealable ==> p == Err(Refusal(Unproducible, "seal")))
            && (fits && sealable && !named ==> p == Err(Refusal(Unproducible, "sig_id")))
            && (p.Err? && fits && sealable && named ==> p == Err(Refusal(Failed, "")))
  {
    hide TooWide, Encoded, Region;
    WideIsFirst(o.texts, 0);
  }

  /** What the footer of a package says of it: each field, and the signature in its block. */
  lemma WrittenSays(c: Suite, payload: seq<Byte>, o: Options, nonce: seq<Byte>)
    requires Assumed(c) && Given(o) && Holdable(c, payload, o, nonce)
    requires Packed(c, payload, o, nonce).Ok? && Read(c, Packed(c, payload, o, nonce).value).Ok?
    ensures var file, f := Packed(c, payload, o, nonce).value, Read(c, Packed(c, payload, o, nonce).value).value;
            && f.meta.model == o.model && f.meta.hashId == HASH_SHA256 && f.meta.digest == c.hash(payload)
            && f.meta.sealId == (if o.seal.Some? then SEAL_AES256GCM else SEAL_NONE)
            && f.meta.payloadSize == |file| - FOOTER_SIZE
            && |f.sig| == BLOCK_SIZE
            && match o.sign
               case None => f.meta.sigId == SIG_NONE && f.meta.keyId == Zeros(32) && f.sig == Zeros(BLOCK_SIZE)
               case Some(key) =>
                 && Some(f.meta.sigId) == key.algorithm && f.meta.keyId == key.keyId
                 && key.sign(f.block).Some?
                 && var s := key.sign(f.block).value;
                    if |s| >= BLOCK_SIZE then f.sig == s[..BLOCK_SIZE] else f.sig == s + Zeros(BLOCK_SIZE - |s|)
  {
    hide Read, FirstNotText, Encoded, TooWide;
    WrittenIsRead(c, payload, o, nonce);
    var file, f, region := Packed(c, payload, o, nonce).value, Read(c, Packed(c, payload, o, nonce).value).value,
        Region(c, payload, o, nonce);
    FooterFound(c, file);
    assert file[..|region|] == region;
    hide Region;
  }

  lemma FooterFound(c: Suite, file: seq<Byte>)
    requires Read(c, file).Ok?
    ensures |file| >= FOOTER_SIZE && Read(c, file).value.block == file[|file| - BLOCK_SIZE..]
    ensures Read(c, file).value.sig == file[|file| - FOOTER_SIZE..|file| - BLOCK_SIZE]
  {
  }

  ghost predicate Footed(c: Suite, file: seq<Byte>, sig: seq<Byte>, m: Meta) {
    && WellFormed(m) && |sig| == BLOCK_SIZE && m.payloadSize + FOOTER_SIZE == |file|
    && file == file[..m.payloadSize] + sig + Encoded(m, c.crc)
    && forall i :: 0 <= i < 4 ==> c.utf8(TrimZeros(m.texts[i]))
  }

  /** A file is accepted exactly where it ends in a signature block and the writing of some metadata that states the
      size of what comes before, and whose texts, trailing zeros taken off, are UTF-8. */
  lemma AcceptedExactlyWhen(c: Suite, file: seq<Byte>)
    requires Assumed(c)
    ensures Read(c, file).Ok? <==> exists sig, m :: Footed(c, file, sig, m)
  {
    if Read(c, file).Ok? {
      var f := Read(c, file).value;
      AcceptedIsCanonical(c, file);
      AcceptedIsText(c, file);
      hide Read, Encoded;
      assert Footed(c, file, f.sig, f.meta);
    }
    if sig, m :| Footed(c, file, sig, m) {
      EncodedLayout(m, c.crc);
      LayoutReads(c, file[..m.payloadSize], sig, Encoded(m, c.crc), m);
      assert ReadsAs(c, m.texts, 0);
      hide Read, Encoded;
    }
  }

  lemma {:induction false} TrimTwice(v: seq<Byte>)
    ensures TrimZeros(TrimZeros(v)) == TrimZeros(v)
  {
    if v != [] && v[|v| - 1] == 0 { TrimTwice(v[..|v| - 1]); }
  }

  lemma {:induction false} NoneNotText(c: Suite, b: seq<Byte>, i: nat)
    requires |b| == BLOCK_SIZE && i <= 4
    ensures NotText(c, b, i) == None <==> forall k :: i <= k < 4 ==> c.utf8(TextAt(b, k))
    ensures NotText(c, b, i).Some? ==> i <= NotText(c, b, i).value && !c.utf8(TextAt(b, NotText(c, b, i).value))
    ensures NotText(c, b, i).Some? ==> forall k :: i <= k < NotText(c, b, i).value ==> c.utf8(TextAt(b, k))
    decreases 4 - i
  {
    if i < 4 { NoneNotText(c, b, i + 1); }
  }

  lemma AcceptedIsText(c: Suite, file: seq<Byte>)
    requires Read(c, file).Ok?
    ensures var texts := Read(c, file).value.meta.texts;
            |texts| == 4 && forall i :: 0 <= i < 4 ==> c.utf8(TrimZeros(texts[i]))
  {
    hide TextAt, NotText, TrimZeros, Get, Zeros;
    var b := Read(c, file).value.block;
    NoneNotText(c, b, 0);
    TextTwice(b);
    var texts := Read(c, file).value.meta.texts;
    assert texts[0] == TextAt(b, 0) && texts[1] == TextAt(b, 1) && texts[2] == TextAt(b, 2) && texts[3] == TextAt(b, 3);
  }

  lemma TextTwice(b: seq<Byte>)
    requires |b| == BLOCK_SIZE
    ensures forall i :: 0 <= i < 4 ==> TrimZeros(TextAt(b, i)) == TextAt(b, i)
  {
    forall i | 0 <= i < 4
      ensures TrimZeros(TextAt(b, i)) == TextAt(b, i)
    {
      TrimTwice(b[FIELDS[i].at..FIELDS[i].at + FIELDS[i].width]);
    }
  }

  const FAULTS := [
    Refusal(NotAPackage, ""), Refusal(NotAPackage, "magic"), Refusal(NotAPackage, "format"),
    Refusal(Unreadable, "header_len"), Refusal(Damaged, "crc32"), Refusal(Unreadable, "reserved")
  ]

  /** What is demanded of a file in turn, before its texts and its size. */
  ghost predicate Meets(c: Suite, file: seq<Byte>, k: nat)
    requires k == 0 || |file| >= FOOTER_SIZE
  {
    if k == 0 then |file| >= FOOTER_SIZE
    else
      var b := file[|file| - BLOCK_SIZE..];
      match k
      case 1 => b[0..8] == MAGIC
      case 2 => b[8..10] == Put(FORMAT, 2)
      case 3 => b[10..12] == Put(COVERED, 2)
      case 4 => b[252..256] == Put(c.crc(b[..COVERED]), 4)
      case 5 => b[17..24] == Zeros(7) && b[220..252] == Zeros(32)
      case _ => true
  }

  /** A file that is refused is refused as what it first fails to be; past those, as damaged, at its first text that is
      not UTF-8, or else at its size. */
  lemma RefusedAtTheFirstFault(c: Suite, file: seq<Byte>, k: nat)
    requires Assumed(c) && k <= 6
    requires forall j :: 0 <= j < k ==> (j == 0 || |file| >= FOOTER_SIZE) && Meets(c, file, j)
    ensures k == 0 || |file| >= FOOTER_SIZE
    ensures k < 6 && !Meets(c, file, k) ==> Read(c, file) == Err(FAULTS[k])
    ensures k == 6 ==>
              var b := file[|file| - BLOCK_SIZE..];
              && (forall i :: 0 <= i < 4 && !c.utf8(TextAt(b, i))
                              && (forall j :: 0 <= j < i ==> c.utf8(TextAt(b, j)))
                              ==> Read(c, file) == Err(Refusal(Damaged, FIELDS[i].name)))
              && ((forall i :: 0 <= i < 4 ==> c.utf8(TextAt(b, i))) && Get(b[24..32]) != |file| - FOOTER_SIZE
                  ==> Read(c, file) == Err(Refusal(Damaged, "payload_size")))
  {
    hide Put, Get, TextAt, NotText, Decoded, TrimZeros, Zeros;
    assert k > 0 ==> Meets(c, file, 0);
    if |file| >= FOOTER_SIZE {
      var b := file[|file| - BLOCK_SIZE..];
      Powers();
      NumbersAreBytes(b[8..10], FORMAT);
      NumbersAreBytes(b[10..12], COVERED);
      NumbersAreBytes(b[252..256], c.crc(b[..COVERED]));
      NoneNotText(c, b, 0);
      assert k > 1 ==> Meets(c, file, 1);
      assert k > 2 ==> Meets(c, file, 2);
      assert k > 3 ==> Meets(c, file, 3);
      assert k > 4 ==> Meets(c, file, 4);
      assert k > 5 ==> Meets(c, file, 5);
    }
  }

  lemma NumbersAreBytes(b: seq<Byte>, n: nat)
    requires n < Power(|b|)
    ensures b == Put(n, |b|) <==> Get(b) == n
  {
    GetPut(n, |b|);
    PutGet(b);
  }

  /** A payload comes out exactly where it has the digest stated and is what the region holds, or what opens of it with
      a credential of the right length. */
  lemma OpensExactlyWhen(c: Suite, f: Footer, file: seq<Byte>, credential: Option<seq<Byte>>, p: seq<Byte>)
    ensures Opened(c, f, file, credential) == Ok(p)
            <==> && f.meta.payloadSize <= |file| && c.hash(p) == f.meta.digest
                 && var region := file[..f.meta.payloadSize];
                    if f.meta.sealId != SEAL_AES256GCM then p == region
                    else && credential.Some? && |credential.value| == SEAL_KEY && |region| >= NONCE_SIZE + TAG_SIZE
                         && c.unseal(credential.value, region[..NONCE_SIZE], region[NONCE_SIZE..]) == Some(p)
  {
  }

  // ----- The blocks, filled by offset -----

  ghost function Filled(s: seq<Byte>): seq<Byte>
    requires |s| <= BLOCK_SIZE
  {
    s + Zeros(BLOCK_SIZE - |s|)
  }

  lemma ZerosAreFilled(s: seq<Byte>, k: nat)
    requires |s| + k <= BLOCK_SIZE
    ensures Filled(s + Zeros(k)) == Filled(s)
  {
    assert Zeros(k) + Zeros(BLOCK_SIZE - |s| - k) == Zeros(BLOCK_SIZE - |s|);
  }

  /** Copies `v` to where the block is filled up to. */
  method Copy(b: array<Byte>, at: nat, v: seq<Byte>, ghost filled: seq<Byte>)
    requires b.Length == BLOCK_SIZE && at == |filled| && at + |v| <= BLOCK_SIZE && b[..] == Filled(filled)
    modifies b
    ensures b[..] == Filled(filled + v)
  {
    for j := 0 to |v|
      invariant b[..] == old(b[..])[..at] + v[..j] + old(b[..])[at + j..]
    {
      b[at + j] := v[j];
    }
    assert old(b[..])[at + |v|..] == Zeros(BLOCK_SIZE - at - |v|);
  }

  ghost function WithTexts(m: Meta, i: nat): (r: seq<Byte>)
    requires WellFormed(m) && i <= 4
    ensures |r| == if i < 4 then FIELDS[i].at else 220
  {
    if i == 0 then Fixed(m) else WithTexts(m, i - 1) + Padded(m.texts[i - 1], FIELDS[i - 1].width)
  }

  method EncodeHead(b: array<Byte>, m: Meta)
    requires b.Length == BLOCK_SIZE && b[..] == Filled([])
    modifies b
    ensures b[..] == Filled(Head(m))
  {
    hide Put, Filled;
    Copy(b, 0, MAGIC, []);
    ghost var filled := [] + MAGIC;
    Copy(b, 8, Put(FORMAT, 2), filled);
    filled := filled + Put(FORMAT, 2);
    Copy(b, 10, Put(COVERED, 2), filled);
    filled := filled + Put(COVERED, 2);
    Copy(b, 12, Put(m.model, 2), filled);
    filled := filled + Put(m.model, 2);
    Copy(b, 14, [m.hashId, m.sigId, m.sealId], filled);
    assert filled + [m.hashId, m.sigId, m.sealId] == Head(m);
  }

  method EncodeFixed(b: array<Byte>, m: Meta)
    requires b.Length == BLOCK_SIZE && b[..] == Filled(Head(m)) && WellFormed(m)
    modifies b
    ensures b[..] == Filled(Fixed(m))
  {
    hide Put, Filled, Head;
    ZerosAreFilled(Head(m), 7);
    ghost var filled := Head(m) + Zeros(7);
    Copy(b, 24, Put(m.payloadSize, 8), filled);
    filled := filled + Put(m.payloadSize, 8);
    Copy(b, 32, Put(Unsigned(m.builtAt), 8), filled);
    filled := filled + Put(Unsigned(m.builtAt), 8);
    Copy(b, 40, m.digest, filled);
    filled := filled + m.digest;
    Copy(b, 72, m.keyId, filled);
    assert filled + m.keyId == Fixed(m);
  }

  method Encode(m: Meta, crc: seq<Byte> -> nat) returns (b: array<Byte>)
    requires WellFormed(m)
    ensures fresh(b) && b[..] == Encoded(m, crc)
  {
    hide Put, Filled, Fixed;
    b := new Byte[BLOCK_SIZE](_ => 0);
    BlankIsFilled(b[..]);
    EncodeHead(b, m);
    EncodeFixed(b, m);
    for i := 0 to |FIELDS|
      invariant b[..] == Filled(WithTexts(m, i))
    {
      Copy(b, FIELDS[i].at, m.texts[i], WithTexts(m, i));
      ZerosAreFilled(WithTexts(m, i) + m.texts[i], FIELDS[i].width - |m.texts[i]|);
      assert WithTexts(m, i) + m.texts[i] + Zeros(FIELDS[i].width - |m.texts[i]|) == WithTexts(m, i + 1);
    }
    ZerosAreFilled(WithTexts(m, 4), 32);
    TextsAreCovered(m);
    FilledBegins(Covered(m));
    var sum := crc(b[..COVERED]);
    Copy(b, COVERED, Put(sum, 4), Covered(m));
    FilledIsWhole(Encoded(m, crc));
  }

  lemma BlankIsFilled(s: seq<Byte>)
    requires |s| == BLOCK_SIZE && forall i :: 0 <= i < |s| ==> s[i] == 0
    ensures s == Filled([])
  {
  }

  lemma FilledBegins(s: seq<Byte>)
    requires |s| <= BLOCK_SIZE
    ensures |Filled(s)| == BLOCK_SIZE && Filled(s)[..|s|] == s
  {
  }

  lemma FilledIsWhole(s: seq<Byte>)
    requires |s| == BLOCK_SIZE
    ensures Filled(s) == s
  {
  }

  lemma TextsAreCovered(m: Meta)
    requires WellFormed(m)
    ensures WithTexts(m, 4) + Zeros(32) == Covered(m)
  {
    hide Fixed, Padded;
    assert WithTexts(m, 1) == Fixed(m) + Padded(m.texts[0], 48);
    assert WithTexts(m, 2) == WithTexts(m, 1) + Padded(m.texts[1], 32);
    assert WithTexts(m, 3) == WithTexts(m, 2) + Padded(m.texts[2], 12);
  }

  class Sink {
    var bytes: seq<Byte>

    constructor ()
      ensures bytes == []
    {
      bytes := [];
    }

    method Write(part: seq<Byte>)
      modifies this
      ensures bytes == old(bytes) + part
    {
      bytes := bytes + part;
    }
  }

  /** Produces a package: the payload region, sealed where a credential is given, then the footer. A
      refusal leaves the output as it was. */
  method Write(w: Sink, c: Suite, payload: seq<Byte>, o: Options, nonce: seq<Byte>) returns (refusal: Option<Refusal>)
    requires Assumed(c) && Given(o) && Holdable(c, payload, o, nonce)
    modifies w
    ensures match Packed(c, payload, o, nonce)
            case Ok(file) => refusal == None && w.bytes == old(w.bytes) + file
            case Err(e) => refusal == Some(e) && w.bytes == old(w.bytes)
  {
    hide Encoded, TooWide, SigBlock, Layout;
    var wide := Widest(o.texts);
    if wide.Some? {
      return Some(Refusal(Unproducible, FIELDS[wide.value].name));
    }
    if o.seal.Some? && |o.seal.value| != SEAL_KEY {
      return Some(Refusal(Unproducible, "seal"));
    }
    if o.sign.Some? && o.sign.value.algorithm == None {
      return Some(Refusal(Unproducible, "sig_id"));
    }
    NoneTooWide(o.texts, 0);
    var region := Region(c, payload, o, nonce);
    var meta := Encode(MetaOf(c, payload, o, nonce), c.crc);
    var sig := Zeros(BLOCK_SIZE);
    if o.sign.Some? {
      var s := o.sign.value.sign(meta[..]);
      if s == None {
        return Some(Refusal(Failed, ""));
      }
      sig := SigBlock(s.value);
    }
    w.Write(region);
    w.Write(sig);
    w.Write(meta[..]);
    assert old(w.bytes) + region + sig + meta[..] == old(w.bytes) + (region + sig + meta[..]);
    return None;
  }

  method Widest(texts: seq<seq<Byte>>) returns (wide: Option<nat>)
    requires |texts| == 4
    ensures wide == TooWide(texts, 0)
    ensures wide.Some? ==> wide.value < 4
  {
    for i := 0 to |FIELDS|
      invariant TooWide(texts, 0) == TooWide(texts, i)
    {
      if |texts[i]| > FIELDS[i].width {
        return Some(i);
      }
    }
    return None;
  }

  /** Takes a footer off the end of a file; its magic, its format and its checksum are looked at in turn. */
  method ReadFooter(c: Suite, file: seq<Byte>) returns (f: Result<Footer, Refusal>)
    ensures f == Read(c, file)
  {
    hide Get, Zeros, TrimZeros;
    if |file| < FOOTER_SIZE {
      return Err(Refusal(NotAPackage, ""));
    }
    var b := file[|file| - FOOTER_SIZE..];
    var sig, meta := b[..BLOCK_SIZE], b[BLOCK_SIZE..];
    assert sig == file[|file| - FOOTER_SIZE..|file| - BLOCK_SIZE] && meta == file[|file| - BLOCK_SIZE..];
    if meta[0..8] != MAGIC {
      return Err(Refusal(NotAPackage, "magic"));
    }
    if Get(meta[8..10]) != FORMAT {
      return Err(Refusal(NotAPackage, "format"));
    }
    if Get(meta[10..12]) != COVERED {
      return Err(Refusal(Unreadable, "header_len"));
    }
    if Get(meta[252..256]) != c.crc(meta[..COVERED]) {
      return Err(Refusal(Damaged, "crc32"));
    }
    for i := 0 to |RESERVED|
      invariant i > 0 ==> meta[17..24] == Zeros(7)
      invariant i > 1 ==> meta[220..252] == Zeros(32)
    {
      var r := RESERVED[i];
      if meta[r.0..r.1] != Zeros(r.1 - r.0) {
        return Err(Refusal(Unreadable, "reserved"));
      }
    }
    var texts: seq<seq<Byte>> := [];
    for i := 0 to |FIELDS|
      invariant NotText(c, meta, 0) == NotText(c, meta, i)
      invariant |texts| == i && forall k :: 0 <= k < i ==> texts[k] == TextAt(meta, k)
    {
      var v := TextAt(meta, i);
      if !c.utf8(v) {
        return Err(Refusal(Damaged, FIELDS[i].name));
      }
      texts := texts + [v];
    }
    var size := Get(meta[24..32]);
    if size != |file| - FOOTER_SIZE {
      return Err(Refusal(Damaged, "payload_size"));
    }
    assert texts == Decoded(meta).texts;
    return Ok(Footer(Decoded(meta).(texts := texts), meta, sig));
  }

  /** Gives the payload back, opened if it was sealed; what comes back always has the digest that the metadata
      states. */
  method Open(c: Suite, f: Footer, file: seq<Byte>, credential: Option<seq<Byte>>)
      returns (payload: Result<seq<Byte>, Refusal>)
    ensures payload == Opened(c, f, file, credential)
    ensures payload.Ok? ==> c.hash(payload.value) == f.meta.digest
  {
    if f.meta.payloadSize > |file| {
      return Err(Refusal(Failed, ""));
    }
    var region := file[..f.meta.payloadSize];
    var inside := region;
    if f.meta.sealId == SEAL_AES256GCM {
      if credential == None || |credential.value| != SEAL_KEY {
        return Err(Refusal(Seal, "seal_id"));
      }
      if |region| < NONCE_SIZE + TAG_SIZE {
        return Err(Refusal(Damaged, "payload_size"));
      }
      match c.unseal(credential.value, region[..NONCE_SIZE], region[NONCE_SIZE..]) {
        case None => return Err(Refusal(Seal, "seal_id"));
        case Some(p) => inside := p;
      }
    }
    if c.hash(inside) != f.meta.digest {
      return Err(Refusal(Digest, "digest"));
    }
    return Ok(inside);
  }
}
