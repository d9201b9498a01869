/** SFTP version 3 data (sftp/buffer.c): words, file attributes and packets as bytes,
    and back. */
module SftpCodec {
  import opened Wrappers
  import opened Numbers

  const WORD := 0x1_0000_0000

  // ----- Integers, most significant byte first

  function Word(v: nat): (b: seq<Byte>)
    requires v < WORD
    ensures |b| == 4
  {
    [v / 256 / 256 / 256, v / 256 / 256 % 256, v / 256 % 256, v % 256]
  }

  function ReadWord(b: seq<Byte>): (v: nat)
    requires |b| == 4
    ensures v < WORD
  {
    var b0: int, b1: int, b2: int, b3: int := b[0], b[1], b[2], b[3];
    ((b0 * 256 + b1) * 256 + b2) * 256 + b3
  }

  lemma WordRoundTrip(v: nat)
    requires v < WORD
    ensures ReadWord(Word(v)) == v
  {
  }

  lemma ReadWordRoundTrip(b: seq<Byte>)
    requires |b| == 4
    ensures Word(ReadWord(b)) == b
  {
    var b0: int, b1: int, b2: int := b[0], b[1], b[2];
    assert ReadWord(b) / 256 == (b0 * 256 + b1) * 256 + b2;
    assert ReadWord(b) / 256 / 256 == b0 * 256 + b1;
  }

  /** A file size, which is a signed 64-bit number, in two's complement. */
  predicate IsSize(v: int) {
    -WORD * WORD / 2 <= v < WORD * WORD / 2
  }

  function Long(v: int): (b: seq<Byte>)
    requires IsSize(v)
    ensures |b| == 8
  {
    var u := if v < 0 then v + WORD * WORD else v;
    Word(u / WORD) + Word(u % WORD)
  }

  function ReadLong(b: seq<Byte>): (v: int)
    requires |b| == 8
    ensures IsSize(v)
  {
    var u := ReadWord(b[..4]) * WORD + ReadWord(b[4..]);
    if u >= WORD * WORD / 2 then u - WORD * WORD else u
  }

  lemma LongRoundTrip(v: int)
    requires IsSize(v)
    ensures ReadLong(Long(v)) == v
  {
    var u := if v < 0 then v + WORD * WORD else v;
    assert Long(v)[..4] == Word(u / WORD) && Long(v)[4..] == Word(u % WORD);
    WordRoundTrip(u / WORD);
    WordRoundTrip(u % WORD);
  }

  // ----- Reading from the front of what is left of a packet

  datatype Got<T> = Got(value: T, rest: seq<Byte>) | Short

  function GetWord(b: seq<Byte>): Got<nat> {
    if |b| < 4 then Short else Got(ReadWord(b[..4]), b[4..])
  }

  function GetLong(b: seq<Byte>): Got<int> {
    if |b| < 8 then Short else Got(ReadLong(b[..8]), b[8..])
  }

  function GetString(b: seq<Byte>): (r: Got<seq<Byte>>)
    ensures r.Got? ==> |r.rest| < |b|
  {
    var length := GetWord(b);
    if length.Short? || |length.rest| < length.value then Short
    else Got(length.rest[..length.value], length.rest[length.value..])
  }

  lemma GetWordBack(v: nat, rest: seq<Byte>)
    requires v < WORD
    ensures GetWord(Word(v) + rest) == Got(v, rest)
  {
    WordRoundTrip(v);
    assert (Word(v) + rest)[..4] == Word(v) && (Word(v) + rest)[4..] == rest;
  }

  lemma GetLongBack(v: int, rest: seq<Byte>)
    requires IsSize(v)
    ensures GetLong(Long(v) + rest) == Got(v, rest)
  {
    LongRoundTrip(v);
    assert (Long(v) + rest)[..8] == Long(v) && (Long(v) + rest)[8..] == rest;
  }

  /** sftp_put_string, read back. */
  lemma GetStringBack(s: seq<Byte>, rest: seq<Byte>)
    requires |s| < WORD
    ensures GetString(Word(|s|) + s + rest) == Got(s, rest)
  {
    assert Word(|s|) + s + rest == Word(|s|) + (s + rest);
    GetWordBack(|s|, s + rest);
  }

  // ----- File attributes

  const SIZE := 0x1
  const UIDGID := 0x2
  const PERMISSIONS := 0x4
  const ACMODTIME := 0x8
  const EXTENDED := 0x8000_0000

  datatype Attrib = Attrib(flags: nat, size: int, uid: nat, gid: nat, permissions: nat, atime: nat, mtime: nat)

  predicate Has(flags: nat, bit: nat)
    requires bit > 0
  {
    flags / bit % 2 == 1
  }

  /** The field types hold the values. */
  predicate Fits(a: Attrib) {
    && a.flags < WORD && IsSize(a.size)
    && a.uid < WORD && a.gid < WORD && a.permissions < WORD && a.atime < WORD && a.mtime < WORD
  }

  function SizePart(a: Attrib): seq<Byte>
    requires Fits(a)
  {
    if Has(a.flags, SIZE) then Long(a.size) else []
  }

  function OwnerPart(a: Attrib): seq<Byte>
    requires Fits(a)
  {
    if Has(a.flags, UIDGID) then Word(a.uid) + Word(a.gid) else []
  }

  function ModePart(a: Attrib): seq<Byte>
    requires Fits(a)
  {
    if Has(a.flags, PERMISSIONS) then Word(a.permissions) else []
  }

  function TimePart(a: Attrib): seq<Byte>
    requires Fits(a)
  {
    if Has(a.flags, ACMODTIME) then Word(a.atime) + Word(a.mtime) else []
  }

  /** sftp_put_attrib. */
  function PutAttrib(a: Attrib): seq<Byte>
    requires Fits(a) && !Has(a.flags, EXTENDED)
  {
    Word(a.flags) + SizePart(a) + OwnerPart(a) + ModePart(a) + TimePart(a)
  }

  function GetSize(flags: nat, b: seq<Byte>): Got<int> {
    if Has(flags, SIZE) then GetLong(b) else Got(0, b)
  }

  /** One optional word, and two. */
  function GetOne(present: bool, b: seq<Byte>): Got<nat> {
    if present then GetWord(b) else Got(0, b)
  }

  function GetTwo(present: bool, b: seq<Byte>): Got<(nat, nat)> {
    if !present then Got((0, 0), b)
    else
      var first := GetWord(b);
      if first.Short? then Short
      else
        var second := GetWord(first.rest);
        if second.Short? then Short else Got((first.value, second.value), second.rest)
  }

  /** sftp_skip_extension: what follows a name and a value. */
  function SkipPair(b: seq<Byte>): Option<seq<Byte>> {
    var name := GetString(b);
    if name.Short? then None
    else
      var value := GetString(name.rest);
      if value.Short? then None else Some(value.rest)
  }

  /** The rest after `count` extensions. */
  function SkipExtensions(count: nat, b: seq<Byte>): Option<seq<Byte>>
    decreases count
  {
    if count == 0 then Some(b)
    else
      var rest := SkipExtensions(count - 1, b);
      if rest.None? then None else SkipPair(rest.value)
  }

  lemma SkipNext(n: nat, b: seq<Byte>, rest: seq<Byte>)
    requires SkipExtensions(n, b) == Some(rest)
    ensures SkipExtensions(n + 1, b) == SkipPair(rest)
  {
  }

  lemma {:induction false} StuckStaysStuck(n: nat, count: nat, b: seq<Byte>)
    requires n <= count && SkipExtensions(n, b).None?
    ensures SkipExtensions(count, b).None?
  {
    if n < count {
      StuckStaysStuck(n, count - 1, b);
    }
  }

  function GetExtensions(flags: nat, b: seq<Byte>): Option<seq<Byte>> {
    if !Has(flags, EXTENDED) then Some(b)
    else
      var count := GetWord(b);
      if count.Short? then None else SkipExtensions(count.value, count.rest)
  }

  /** The mode, the times and the extensions. */
  function GetEnd(f: nat, size: int, owner: (nat, nat), b: seq<Byte>): Got<Attrib> {
    var mode := GetOne(Has(f, PERMISSIONS), b);
    if mode.Short? then Short
    else
      var time := GetTwo(Has(f, ACMODTIME), mode.rest);
      if time.Short? then Short
      else
        var extra := GetExtensions(f, time.rest);
        if extra.None? then Short
        else Got(Attrib(f, size, owner.0, owner.1, mode.value, time.value.0, time.value.1), extra.value)
  }

  /** sftp_get_attrib. */
  function GetAttrib(b: seq<Byte>): Got<Attrib> {
    var flags := GetWord(b);
    if flags.Short? then Short
    else
      var size := GetSize(flags.value, flags.rest);
      if size.Short? then Short
      else
        var owner := GetTwo(Has(flags.value, UIDGID), size.rest);
        if owner.Short? then Short else GetEnd(flags.value, size.value, owner.value, owner.rest)
  }

  /** An attribute record without the fields its flags do not announce. */
  function Announced(a: Attrib): Attrib {
    Attrib(
      a.flags,
      if Has(a.flags, SIZE) then a.size else 0,
      if Has(a.flags, UIDGID) then a.uid else 0,
      if Has(a.flags, UIDGID) then a.gid else 0,
      if Has(a.flags, PERMISSIONS) then a.permissions else 0,
      if Has(a.flags, ACMODTIME) then a.atime else 0,
      if Has(a.flags, ACMODTIME) then a.mtime else 0)
  }

  lemma GetSizeBack(a: Attrib, rest: seq<Byte>)
    requires Fits(a)
    ensures GetSize(a.flags, SizePart(a) + rest) == Got(Announced(a).size, rest)
  {
    if Has(a.flags, SIZE) {
      GetLongBack(a.size, rest);
    } else {
      assert [] + rest == rest;
    }
  }

  lemma GetTwoBack(present: bool, v: nat, w: nat, rest: seq<Byte>)
    requires v < WORD && w < WORD
    ensures GetTwo(present, (if present then Word(v) + Word(w) else []) + rest) ==
            Got(if present then (v, w) else (0, 0), rest)
  {
    if present {
      assert Word(v) + Word(w) + rest == Word(v) + (Word(w) + rest);
      GetWordBack(v, Word(w) + rest);
      GetWordBack(w, rest);
    } else {
      assert [] + rest == rest;
    }
  }

  lemma GetOneBack(present: bool, v: nat, rest: seq<Byte>)
    requires v < WORD
    ensures GetOne(present, (if present then Word(v) else []) + rest) == Got(if present then v else 0, rest)
  {
    if present {
      GetWordBack(v, rest);
    } else {
      assert [] + rest == rest;
    }
  }

  lemma Regroup(a: seq<Byte>, b: seq<Byte>, c: seq<Byte>, d: seq<Byte>, e: seq<Byte>, rest: seq<Byte>)
    ensures a + b + c + d + e + rest == a + (b + (c + (d + (e + rest))))
  {
  }

  lemma GetEndBack(a: Attrib, rest: seq<Byte>)
    requires Fits(a) && !Has(a.flags, EXTENDED)
    ensures var b := Announced(a);
            GetEnd(a.flags, b.size, (b.uid, b.gid), ModePart(a) + (TimePart(a) + rest)) == Got(b, rest)
  {
    GetOneBack(Has(a.flags, PERMISSIONS), a.permissions, TimePart(a) + rest);
    GetTwoBack(Has(a.flags, ACMODTIME), a.atime, a.mtime, rest);
  }

  /** Attributes read back as they were put, less what their flags do not announce. */
  lemma AttribRoundTrip(a: Attrib, rest: seq<Byte>)
    requires Fits(a) && !Has(a.flags, EXTENDED)
    ensures GetAttrib(PutAttrib(a) + rest) == Got(Announced(a), rest)
  {
    var r3 := ModePart(a) + (TimePart(a) + rest);
    var r2 := OwnerPart(a) + r3;
    var r1 := SizePart(a) + r2;
    Regroup(Word(a.flags), SizePart(a), OwnerPart(a), ModePart(a), TimePart(a), rest);
    GetWordBack(a.flags, r1);
    GetSizeBack(a, r2);
    GetTwoBack(Has(a.flags, UIDGID), a.uid, a.gid, r3);
    GetEndBack(a, rest);
  }

  /** They read back unchanged exactly when unannounced fields are zero. */
  lemma AttribReadsBackIff(a: Attrib, rest: seq<Byte>)
    requires Fits(a) && !Has(a.flags, EXTENDED)
    ensures GetAttrib(PutAttrib(a) + rest) == Got(a, rest) <==>
            && (!Has(a.flags, SIZE) ==> a.size == 0)
            && (!Has(a.flags, UIDGID) ==> a.uid == a.gid == 0)
            && (!Has(a.flags, PERMISSIONS) ==> a.permissions == 0)
            && (!Has(a.flags, ACMODTIME) ==> a.atime == a.mtime == 0)
  {
    AttribRoundTrip(a, rest);
  }

  // ----- Packets

  datatype Packet = Packet(msg: Byte, first: nat, data: seq<Byte>)

  /** What sftp_write_packet writes. */
  function Framed(p: Packet): seq<Byte>
    requires p.first < WORD && |p.data| + 5 < WORD
  {
    Word(|p.data| + 5) + [p.msg] + Word(p.first) + p.data
  }

  /** A packet read off a stream: its length, type, first word, and the rest of it. */
  function GetPacket(b: seq<Byte>): Got<Packet> {
    var body := GetString(b);
    if body.Short? || body.value == [] then Short
    else
      var first := GetWord(body.value[1..]);
      if first.Short? then Short else Got(Packet(body.value[0], first.value, first.rest), body.rest)
  }

  lemma PacketRoundTrip(p: Packet, rest: seq<Byte>)
    requires p.first < WORD && |p.data| + 5 < WORD
    ensures GetPacket(Framed(p) + rest) == Got(p, rest)
  {
    var body := [p.msg] + Word(p.first) + p.data;
    assert Framed(p) + rest == Word(|body|) + body + rest;
    GetStringBack(body, rest);
    assert body[1..] == Word(p.first) + p.data;
    GetWordBack(p.first, p.data);
  }
}
