/** Identifier utilities of `src/utils/id.ts`: the `EKey` interning table and
    the `Id` generator (second timestamp + random word, deduplicated per second,
    rendered as unpadded base64url). */
module Ids {
  import opened Wrappers
  import opened Seqs

  // ---------------------------------------------------------------------------
  // EKey: interned key lists
  // ---------------------------------------------------------------------------

  /** The argument of `EKey.get`: one key or a list of keys. */
  datatype KeyArg = Single(key: string) | Many(keys: seq<string>)

  /** `if (!Array.isArray(key)) key = [key]` */
  function KeyList(arg: KeyArg): (r: seq<string>)
    ensures arg.Single? ==> |r| == 1 && r[0] == arg.key
    ensures arg.Many? ==> r == arg.keys
  {
    match arg
    case Single(k) => [k]
    case Many(ks) => ks
  }

  /** The comparison of `EKey.get`: same length and `===` at every index. */
  predicate ElementwiseEqual(a: seq<string>, b: seq<string>) {
    |a| == |b| && forall i :: 0 <= i < |a| ==> a[i] == b[i]
  }

  /** One interned key list. Its `keys` never change after construction. */
  class EKey {
    const keys: seq<string>

    /** The private constructor: records the new key in the registry. The
        registry's `Get` is its only intended caller; a key made elsewhere
        could repeat a recorded list and break the registry's `Valid`. */
    constructor Make(registry: EKeyRegistry, keys: seq<string>)
      modifies registry
      ensures this.keys == keys
      ensures registry.record == old(registry.record) + [this]
    {
      this.keys := keys;
      new;
      registry.record := registry.record + [this];
    }
  }

  /** The key lists of a record, in order. */
  function RecordedKeys(record: seq<EKey>): (r: seq<seq<string>>)
    ensures |r| == |record|
    ensures forall i :: 0 <= i < |record| ==> r[i] == record[i].keys
  {
    if record == [] then [] else RecordedKeys(record[..|record| - 1]) + [record[|record| - 1].keys]
  }

  /** The process-wide `EKey.record`. */
  class EKeyRegistry {
    var record: seq<EKey>

    /** No two entries carry element-wise equal key lists. */
    ghost predicate Valid()
      reads this
    {
      forall i, j :: 0 <= i < j < |record| ==> record[i].keys != record[j].keys
    }

    constructor ()
      ensures Valid() && record == []
    {
      record := [];
    }

    /** `EKey.get`: the recorded EKey whose keys equal the argument, or a new
        one appended to the record. */
    method Get(arg: KeyArg) returns (e: EKey)
      requires Valid()
      modifies this
      ensures Valid()
      ensures e.keys == KeyList(arg)
      ensures KeyList(arg) in RecordedKeys(old(record)) ==> record == old(record) && e in record
      ensures KeyList(arg) !in RecordedKeys(old(record)) ==> fresh(e) && record == old(record) + [e]
    {
      var key := KeyList(arg);
      var i := 0;
      while i < |record|
        invariant 0 <= i <= |record|
        invariant forall j :: 0 <= j < i ==> record[j].keys != key
      {
        if ElementwiseEqual(record[i].keys, key) {
          assert record[i].keys == key;
          e := record[i];
          return;
        }
        i := i + 1;
      }
      assert key !in RecordedKeys(record);
      e := new EKey.Make(this, key);
    }
  }

  // ---------------------------------------------------------------------------
  // Id: packing
  // ---------------------------------------------------------------------------

  const TwoTo31: int := 0x8000_0000
  const TwoTo32: int := 0x1_0000_0000

  type Byte = x: int | 0 <= x < 256
  /** `Math.floor(Math.random() * 0x100000000)` */
  type Word = x: int | 0 <= x < 0x1_0000_0000

  /** One iteration's inputs: `Math.floor(Date.now() / 1000)` and the random word. */
  datatype Draw = Draw(second: nat, rand: Word)

  /** An identifier: its 8-byte buffer. */
  datatype Id = Id(bytes: seq<Byte>)

  /** ECMAScript ToInt32: the value `DataView.setInt32` stores. */
  function ToInt32(x: int): (r: int)
    ensures -TwoTo31 <= r < TwoTo31
    ensures (r - x) % TwoTo32 == 0
  {
    var w := x % TwoTo32;
    if w >= TwoTo31 then w - TwoTo32 else w
  }

  /** `DataView.setInt32(offset, x)`: four bytes, big-endian, of `x` modulo 2^32. */
  function BigEndian32(x: int): seq<Byte> {
    var w := x % TwoTo32;
    var q1 := w / 0x100;
    var q2 := q1 / 0x100;
    var q3 := q2 / 0x100;
    [q3 % 0x100, q2 % 0x100, q1 % 0x100, w % 0x100]
  }

  /** Reads four big-endian bytes as an unsigned number. */
  function Unsigned32(b: seq<Byte>): int
    requires |b| == 4
  {
    (b[0] as int) * 0x100_0000 + (b[1] as int) * 0x1_0000 + (b[2] as int) * 0x100 + b[3] as int
  }

  /** `DataView.getInt32(offset)`: four big-endian bytes in two's complement. */
  function Signed32(b: seq<Byte>): int
    requires |b| == 4
  {
    var u := Unsigned32(b);
    if u >= TwoTo31 then u - TwoTo32 else u
  }

  /** The buffer the `Id` constructor fills from a successful draw. */
  function Pack(d: Draw): (id: Id)
    ensures |id.bytes| == 8
  {
    Id(BigEndian32(d.second) + BigEndian32(d.rand))
  }

  /** The `timestamp` getter. */
  function Timestamp(id: Id): (r: int)
    requires |id.bytes| == 8
    ensures r % 1000 == 0
    ensures -TwoTo31 * 1000 <= r < TwoTo31 * 1000
  {
    Signed32(id.bytes[..4]) * 1000
  }

  lemma UnsignedOfBigEndian(x: int)
    ensures Unsigned32(BigEndian32(x)) == x % TwoTo32
  {
    var w := x % TwoTo32;
    var q1 := w / 0x100;
    var q2 := q1 / 0x100;
    var q3 := q2 / 0x100;
    assert w == q1 * 0x100 + w % 0x100;
    assert q1 == q2 * 0x100 + q1 % 0x100;
    assert q2 == q3 * 0x100 + q2 % 0x100;
    assert q1 < 0x100_0000;
    assert q2 < 0x1_0000;
    assert q3 < 0x100;
    assert q3 % 0x100 == q3;
  }

  /** Bytes 0-3 hold the second as a 32-bit signed number, so the timestamp is
      that second times 1000 for every second before 2^31. */
  lemma TimestampOfPack(d: Draw)
    ensures Timestamp(Pack(d)) == ToInt32(d.second) * 1000
    ensures d.second < TwoTo31 ==> Timestamp(Pack(d)) == d.second * 1000
  {
    var id := Pack(d);
    assert id.bytes[..4] == BigEndian32(d.second);
    UnsignedOfBigEndian(d.second);
  }

  /** Bytes 4-7 hold the random word unchanged. */
  lemma RandomOfPack(d: Draw)
    ensures Unsigned32(Pack(d).bytes[4..]) == d.rand
  {
    assert Pack(d).bytes[4..] == BigEndian32(d.rand);
    UnsignedOfBigEndian(d.rand);
  }

  /** Two draws give the same buffer exactly when their seconds agree modulo
      2^32 and their random words agree. */
  lemma PackInjective(d1: Draw, d2: Draw)
    ensures Pack(d1) == Pack(d2) <==> d1.second % TwoTo32 == d2.second % TwoTo32 && d1.rand == d2.rand
  {
    if Pack(d1) == Pack(d2) {
      assert Pack(d1).bytes[..4] == BigEndian32(d1.second);
      assert Pack(d2).bytes[..4] == BigEndian32(d2.second);
      assert Pack(d1).bytes[4..] == BigEndian32(d1.rand);
      assert Pack(d2).bytes[4..] == BigEndian32(d2.rand);
      UnsignedOfBigEndian(d1.second);
      UnsignedOfBigEndian(d2.second);
      UnsignedOfBigEndian(d1.rand);
      UnsignedOfBigEndian(d2.rand);
    }
  }

  // ---------------------------------------------------------------------------
  // Id: generation with per-second deduplication
  // ---------------------------------------------------------------------------

  /** The bucket of random words already issued in `second` (empty when absent). */
  function Bucket(randoms: map<nat, seq<Word>>, second: nat): seq<Word> {
    if second in randoms then randoms[second] else []
  }


  /** The process-wide `Id.randoms` table. */
  class IdGenerator {
    var randoms: map<nat, seq<Word>>

    /** No bucket holds the same random word twice. */
    ghost predicate Valid()
      reads this
    {
      forall t :: t in randoms ==> NoDuplicates(randoms[t])
    }

    constructor ()
      ensures Valid() && randoms == map[]
    {
      randoms := map[];
    }

    /** The `Id` constructor's `while (true)` loop, fed by a finite stream of
        draws: draws whose word is already in their second's bucket are
        skipped; the first fresh one is appended to its bucket and packed.
        `tries` is the number of draws skipped. */
    method Create(draws: seq<Draw>) returns (id: Option<Id>, tries: nat)
      requires Valid()
      modifies this
      ensures Valid()
      ensures tries <= |draws|
      ensures forall j :: 0 <= j < tries ==> draws[j].rand in Bucket(old(randoms), draws[j].second)
      ensures tries == |draws| ==> id == None && randoms == old(randoms)
      ensures tries < |draws| ==>
        && draws[tries].rand !in Bucket(old(randoms), draws[tries].second)
        && id == Some(Pack(draws[tries]))
        && randoms == old(randoms)[draws[tries].second :=
                                   Bucket(old(randoms), draws[tries].second) + [draws[tries].rand]]
    {
      tries := 0;
      while tries < |draws|
        invariant tries <= |draws|
        invariant randoms == old(randoms)
        invariant forall j :: 0 <= j < tries ==> draws[j].rand in Bucket(old(randoms), draws[j].second)
      {
        var d := draws[tries];
        if d.second !in randoms {
          randoms := randoms[d.second := []];
        }
        var bucket := randoms[d.second];
        if d.rand in bucket {
          tries := tries + 1;
          continue;
        }
        randoms := randoms[d.second := bucket + [d.rand]];
        id := Some(Pack(d));
        return;
      }
      id := None;
    }

    /** The scheduled `Id.randoms.delete(time)` firing. */
    method Expire(second: nat)
      requires Valid()
      modifies this
      ensures Valid()
      ensures randoms == old(randoms) - {second}
    {
      randoms := randoms - {second};
    }
  }

  // ---------------------------------------------------------------------------
  // Id.toString: base64url without padding (RFC 4648, sections 5 and 3.2)
  // ---------------------------------------------------------------------------

  /** The 64-character alphabet: the standard one of section 4 of RFC 4648
      when `url` is false, the URL-safe one of section 5 when it is true. */
  function Sextet(i: int, url: bool): char
    requires 0 <= i < 64
  {
    if i < 26 then ('A' as int + i) as char
    else if i < 52 then ('a' as int + i - 26) as char
    else if i < 62 then ('0' as int + i - 52) as char
    else if i == 62 then (if url then '-' else '+')
    else (if url then '_' else '/')
  }

  predicate IsUrlChar(c: char) {
    'A' <= c <= 'Z' || 'a' <= c <= 'z' || '0' <= c <= '9' || c == '-' || c == '_'
  }

  /** Base64 of `b` without padding characters. */
  function Encode(b: seq<Byte>, url: bool): (s: string)
    decreases |b|
  {
    if |b| == 0 then []
    else if |b| == 1 then [Sextet(b[0] / 4, url), Sextet(b[0] % 4 * 16, url)]
    else if |b| == 2 then
      [Sextet(b[0] / 4, url), Sextet(b[0] % 4 * 16 + b[1] / 16, url), Sextet(b[1] % 16 * 4, url)]
    else
      [Sextet(b[0] / 4, url), Sextet(b[0] % 4 * 16 + b[1] / 16, url),
       Sextet(b[1] % 16 * 4 + b[2] / 64, url), Sextet(b[2] % 64, url)]
      + Encode(b[3..], url)
  }

  /** `btoa` on the bytes: standard base64 with `=` padding. */
  function Btoa(b: seq<Byte>): (r: string)
    ensures |r| == (|b| + 2) / 3 * 4
  {
    EncodeShape(b, false);
    Encode(b, false) + (if |b| % 3 == 1 then "==" else if |b| % 3 == 2 then "=" else "")
  }

  /** `.replace(/[=]+$/, "")` */
  function TrimPadding(s: string): string
    decreases |s|
  {
    if |s| > 0 && s[|s| - 1] == '=' then TrimPadding(s[..|s| - 1]) else s
  }

  /** `.replace(/x/g, y)` for one character. */
  function ReplaceChar(s: string, x: char, y: char): (r: string)
    ensures |r| == |s|
    ensures forall i :: 0 <= i < |s| ==> r[i] == if s[i] == x then y else s[i]
  {
    seq(|s|, i requires 0 <= i < |s| => if s[i] == x then y else s[i])
  }

  /** `Id.prototype.toString`. */
  function ToString(id: Id): (r: string)
    ensures r == Encode(id.bytes, true)
  {
    TrimBtoa(id.bytes);
    UrlSafeEncode(id.bytes);
    ReplaceChar(ReplaceChar(TrimPadding(Btoa(id.bytes)), '+', '-'), '/', '_')
  }

  /** The inverse of `Sextet(_, true)`. */
  function SextetValue(c: char): Option<int> {
    if 'A' <= c <= 'Z' then Some(c as int - 'A' as int)
    else if 'a' <= c <= 'z' then Some(c as int - 'a' as int + 26)
    else if '0' <= c <= '9' then Some(c as int - '0' as int + 52)
    else if c == '-' then Some(62)
    else if c == '_' then Some(63)
    else None
  }

  predicate IsSextet(v: Option<int>) {
    v.Some? && 0 <= v.value < 64
  }

  /** Decodes one group of two to four characters into one to three bytes. */
  function DecodeGroup(g: string): Option<seq<Byte>>
    requires 2 <= |g| <= 4
  {
    var v0, v1 := SextetValue(g[0]), SextetValue(g[1]);
    var v2 := if |g| >= 3 then SextetValue(g[2]) else Some(0);
    var v3 := if |g| == 4 then SextetValue(g[3]) else Some(0);
    if !(IsSextet(v0) && IsSextet(v1) && IsSextet(v2) && IsSextet(v3)) then None
    else
      var b0: Byte := v0.value * 4 + v1.value / 16;
      var b1: Byte := v1.value % 16 * 16 + v2.value / 4;
      var b2: Byte := v2.value % 4 * 64 + v3.value;
      Some([b0, b1, b2][..|g| - 1])
  }

  /** Decodes unpadded base64url text; the inverse of `Encode(_, true)`. */
  function Decode(s: string): Option<seq<Byte>>
    decreases |s|
  {
    if |s| == 0 then Some([])
    else if |s| == 1 then None
    else if |s| <= 4 then DecodeGroup(s)
    else
      var head, rest := DecodeGroup(s[..4]), Decode(s[4..]);
      if head.None? || rest.None? then None else Some(head.value + rest.value)
  }

  lemma SextetRoundTrip(i: int)
    requires 0 <= i < 64
    ensures SextetValue(Sextet(i, true)) == Some(i)
    ensures IsUrlChar(Sextet(i, true))
  {
  }

  /** What the two replacements do to one character. */
  function UrlChar(c: char): char {
    if c == '+' then '-' else if c == '/' then '_' else c
  }

  lemma SextetUrl(i: int)
    requires 0 <= i < 64
    ensures UrlChar(Sextet(i, false)) == Sextet(i, true)
  {
  }

  /** The two encodings agree character by character up to `UrlChar`. */
  lemma {:induction false} EncodePointwise(b: seq<Byte>)
    ensures |Encode(b, true)| == |Encode(b, false)|
    ensures forall k :: 0 <= k < |Encode(b, false)| ==> Encode(b, true)[k] == UrlChar(Encode(b, false)[k])
    decreases |b|
  {
    if |b| >= 3 {
      EncodePointwise(b[3..]);
      SextetUrl(b[0] / 4);
      SextetUrl(b[0] % 4 * 16 + b[1] / 16);
      SextetUrl(b[1] % 16 * 4 + b[2] / 64);
      SextetUrl(b[2] % 64);
    } else if |b| == 2 {
      SextetUrl(b[0] / 4);
      SextetUrl(b[0] % 4 * 16 + b[1] / 16);
      SextetUrl(b[1] % 16 * 4);
    } else if |b| == 1 {
      SextetUrl(b[0] / 4);
      SextetUrl(b[0] % 4 * 16);
    }
  }

  /** Mapping `+` to `-` and `/` to `_` turns the standard encoding into the
      URL-safe one. */
  lemma UrlSafeEncode(b: seq<Byte>)
    ensures ReplaceChar(ReplaceChar(Encode(b, false), '+', '-'), '/', '_') == Encode(b, true)
  {
    EncodePointwise(b);
  }

  /** The encoding never ends in `=`, so trimming removes exactly the padding. */
  lemma TrimBtoa(b: seq<Byte>)
    ensures TrimPadding(Btoa(b)) == Encode(b, false)
  {
    var e := Encode(b, false);
    EncodeShape(b, false);
    assert TrimPadding(e) == e;
    if |b| % 3 == 1 {
      assert Btoa(b) == e + "==";
      assert (e + "==")[..|e| + 1] == e + "=";
      assert (e + "=")[..|e|] == e;
      assert TrimPadding(e + "==") == TrimPadding(e + "=") == TrimPadding(e);
    } else if |b| % 3 == 2 {
      assert (e + "=")[..|e|] == e;
      assert TrimPadding(e + "=") == TrimPadding(e);
    } else {
      assert Btoa(b) == e;
    }
  }

  /** The length of the unpadded encoding, and its last character is never `=`. */
  lemma {:induction false} EncodeShape(b: seq<Byte>, url: bool)
    ensures |Encode(b, url)| == |b| / 3 * 4 + (if |b| % 3 == 0 then 0 else |b| % 3 + 1)
    ensures |Encode(b, url)| > 0 ==> Encode(b, url)[|Encode(b, url)| - 1] != '='
    ensures url ==> forall k :: 0 <= k < |Encode(b, url)| ==> IsUrlChar(Encode(b, url)[k])
    decreases |b|
  {
    if |b| >= 3 {
      EncodeShape(b[3..], url);
      SextetRoundTrip(b[0] / 4);
      SextetRoundTrip(b[0] % 4 * 16 + b[1] / 16);
      SextetRoundTrip(b[1] % 16 * 4 + b[2] / 64);
      SextetRoundTrip(b[2] % 64);
    } else if |b| == 2 {
      SextetRoundTrip(b[0] / 4);
      SextetRoundTrip(b[0] % 4 * 16 + b[1] / 16);
      SextetRoundTrip(b[1] % 16 * 4);
    } else if |b| == 1 {
      SextetRoundTrip(b[0] / 4);
      SextetRoundTrip(b[0] % 4 * 16);
    }
  }

  /** An 8-byte id renders as 11 characters of the URL-safe alphabet. */
  lemma ToStringShape(id: Id)
    requires |id.bytes| == 8
    ensures |ToString(id)| == 11
    ensures forall k :: 0 <= k < 11 ==> IsUrlChar(ToString(id)[k])
  {
    EncodeShape(id.bytes, true);
  }

  /** The bit arithmetic of one three-byte group is undone by decoding. */
  lemma GroupArithmetic(x0: Byte, x1: Byte, x2: Byte)
    ensures (x0 / 4) * 4 + (x0 % 4 * 16 + x1 / 16) / 16 == x0
    ensures (x0 % 4 * 16 + x1 / 16) % 16 * 16 + (x1 % 16 * 4 + x2 / 64) / 4 == x1
    ensures (x1 % 16 * 4 + x2 / 64) % 4 * 64 + x2 % 64 == x2
  {
  }

  /** Decoding the characters of sextets `i0`..`i3`, of which the first
      `|g|` are present in `g`, yields the first `|g| - 1` of the bytes
      `y0`..`y2` they spell. */
  lemma DecodeSextets(g: string, i0: int, i1: int, i2: int, i3: int, y0: Byte, y1: Byte, y2: Byte)
    requires 2 <= |g| <= 4
    requires 0 <= i0 < 64 && 0 <= i1 < 64 && 0 <= i2 < 64 && 0 <= i3 < 64
    requires g[0] == Sextet(i0, true) && g[1] == Sextet(i1, true)
    requires |g| >= 3 ==> g[2] == Sextet(i2, true)
    requires |g| == 4 ==> g[3] == Sextet(i3, true)
    requires |g| < 4 ==> i3 == 0
    requires |g| < 3 ==> i2 == 0
    requires y0 == i0 * 4 + i1 / 16 && y1 == i1 % 16 * 16 + i2 / 4 && y2 == i2 % 4 * 64 + i3
    ensures DecodeGroup(g) == Some([y0, y1, y2][..|g| - 1])
  {
    SextetRoundTrip(i0);
    SextetRoundTrip(i1);
    SextetRoundTrip(i2);
    SextetRoundTrip(i3);
  }

  lemma EncodeThree(b: seq<Byte>)
    requires |b| == 3
    ensures Encode(b, true) == [Sextet(b[0] / 4, true), Sextet(b[0] % 4 * 16 + b[1] / 16, true),
                                Sextet(b[1] % 16 * 4 + b[2] / 64, true), Sextet(b[2] % 64, true)]
  {
    assert Encode(b[3..], true) == [];
  }

  lemma DecodeEncodeThree(b: seq<Byte>)
    requires |b| == 3
    ensures |Encode(b, true)| == 4
    ensures DecodeGroup(Encode(b, true)) == Some(b)
  {
    var i0, i1, i2, i3 := b[0] / 4, b[0] % 4 * 16 + b[1] / 16, b[1] % 16 * 4 + b[2] / 64, b[2] % 64;
    var g := Encode(b, true);
    EncodeThree(b);
    GroupArithmetic(b[0], b[1], b[2]);
    DecodeSextets(g, i0, i1, i2, i3, b[0], b[1], b[2]);
    assert [b[0], b[1], b[2]][..3] == b;
  }

  lemma DecodeEncodeTwo(b: seq<Byte>)
    requires |b| == 2
    ensures |Encode(b, true)| == 3
    ensures DecodeGroup(Encode(b, true)) == Some(b)
  {
    var i0, i1, i2 := b[0] / 4, b[0] % 4 * 16 + b[1] / 16, b[1] % 16 * 4;
    var g := Encode(b, true);
    assert g == [Sextet(i0, true), Sextet(i1, true), Sextet(i2, true)];
    GroupArithmetic(b[0], b[1], 0);
    DecodeSextets(g, i0, i1, i2, 0, b[0], b[1], 0);
    assert [b[0], b[1], 0][..2] == b;
  }

  lemma DecodeEncodeOne(b: seq<Byte>)
    requires |b| == 1
    ensures |Encode(b, true)| == 2
    ensures DecodeGroup(Encode(b, true)) == Some(b)
  {
    var i0, i1 := b[0] / 4, b[0] % 4 * 16;
    var g := Encode(b, true);
    assert g == [Sextet(i0, true), Sextet(i1, true)];
    GroupArithmetic(b[0], 0, 0);
    DecodeSextets(g, i0, i1, 0, 0, b[0], 0, 0);
    assert [b[0], 0, 0][..1] == b;
  }

  lemma DecodeEncodeGroup(b: seq<Byte>)
    requires 1 <= |b| <= 3
    ensures |Encode(b, true)| == |b| + 1
    ensures DecodeGroup(Encode(b, true)) == Some(b)
  {
    if |b| == 3 {
      DecodeEncodeThree(b);
    } else if |b| == 2 {
      DecodeEncodeTwo(b);
    } else {
      DecodeEncodeOne(b);
    }
  }

  lemma EncodeSplit(b: seq<Byte>, url: bool)
    requires |b| >= 3
    ensures Encode(b, url) == Encode(b[..3], url) + Encode(b[3..], url)
  {
    var h := b[..3];
    assert h[3..] == [];
    assert h[0] == b[0] && h[1] == b[1] && h[2] == b[2];
  }

  lemma {:induction false} DecodeEncode(b: seq<Byte>)
    ensures Decode(Encode(b, true)) == Some(b)
    decreases |b|
  {
    if 1 <= |b| <= 3 {
      DecodeEncodeGroup(b);
    } else if |b| > 3 {
      var s := Encode(b, true);
      var h, t := Encode(b[..3], true), Encode(b[3..], true);
      DecodeEncodeGroup(b[..3]);
      DecodeEncode(b[3..]);
      EncodeShape(b[3..], true);
      EncodeSplit(b, true);
      assert s[..4] == h && s[4..] == t;
      assert Decode(s) == Some(b[..3] + b[3..]);
      assert b[..3] + b[3..] == b;
    }
  }

  /** Distinct buffers never render as the same string, so distinct ids stay
      distinct as call correlation strings. */
  lemma ToStringInjective(a: Id, b: Id)
    requires ToString(a) == ToString(b)
    ensures a == b
  {
    DecodeEncode(a.bytes);
    DecodeEncode(b.bytes);
  }
}
