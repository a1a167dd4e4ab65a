/** `struct inotify_event` in a read buffer: four 32-bit fields, then `len` bytes holding the name and
    at least one null byte, or nothing. */
module EventWire {
  import opened Basics
  import opened Bytes
  import opened Monitor

  const HEADER := 16
  const NAME_MAX := 255
  const INOTIFY_READ_BUF_LEN := 100 * (HEADER + NAME_MAX + 1)

  /** An event as the kernel writes it, with `pad` null bytes after the name. */
  datatype Packet = Packet(ev: Event, pad: nat)

  predicate PacketOk(p: Packet) {
    && KernelEvent(p.ev) && p.ev.wd < TWO32 / 2 && p.ev.mask < TWO32 && p.ev.cookie < TWO32
    && |p.ev.name| + p.pad <= NAME_MAX + 1
    && (p.ev.name == "" || p.pad > 0)
    && forall i :: 0 <= i < |p.ev.name| ==> 0 < p.ev.name[i] as int < 256
  }

  function Field(n: int): seq<Byte>
    requires -1 <= n < TWO32
  {
    ToLe(if n == -1 then TWO32 - 1 else n, 4)
  }

  function NameBytes(name: string): seq<Byte>
    requires forall i :: 0 <= i < |name| ==> 0 < name[i] as int < 256
  {
    seq(|name|, i requires 0 <= i < |name| => name[i] as int)
  }

  function Zeros(n: nat): seq<Byte> {
    seq(n, _ => 0)
  }

  function Encode(p: Packet): seq<Byte>
    requires PacketOk(p)
  {
    Field(p.ev.wd) + Field(p.ev.mask) + Field(p.ev.cookie) + Field(|p.ev.name| + p.pad)
    + NameBytes(p.ev.name) + Zeros(p.pad)
  }

  predicate PacketsOk(ps: seq<Packet>) {
    forall i :: 0 <= i < |ps| ==> PacketOk(ps[i])
  }

  function EncodeAll(ps: seq<Packet>): seq<Byte>
    requires PacketsOk(ps)
  {
    if ps == [] then [] else Encode(ps[0]) + EncodeAll(ps[1..])
  }

  function Events(ps: seq<Packet>): seq<Event> {
    seq(|ps|, i requires 0 <= i < |ps| => ps[i].ev)
  }

  // ----- what the program reads out of the buffer -----

  function FieldAt(b: seq<Byte>, k: nat): nat
    requires 4 * k + 4 <= |b|
  {
    FromLe(b[4 * k..4 * k + 4])
  }

  /** `sizeof(struct inotify_event) + ev->len` */
  function EventLen(b: seq<Byte>): nat
    requires HEADER <= |b|
  {
    HEADER + FieldAt(b, 3)
  }

  /** A C string: the characters before the first null byte. */
  function CString(b: seq<Byte>): string {
    if b == [] || b[0] == 0 then "" else [b[0] as char] + CString(b[1..])
  }

  function Decode(b: seq<Byte>): Event
    requires HEADER <= |b| && EventLen(b) <= |b|
  {
    var wd := FieldAt(b, 0);
    Event(if wd >= TWO32 / 2 then wd - TWO32 else wd, FieldAt(b, 1), FieldAt(b, 2), CString(b[HEADER..EventLen(b)]))
  }

  lemma {:induction false} CStringIs(b: seq<Byte>)
    ensures var t := CString(b);
            && |t| <= |b| && (|t| < |b| ==> b[|t|] == 0)
            && forall i :: 0 <= i < |t| ==> t[i] as int == b[i] != 0
  {
    if b != [] && b[0] != 0 {
      CStringIs(b[1..]);
    }
  }

  /** Where the fields of `struct inotify_event` stand, for every buffer: four words, the first signed, then
      a name of which the fourth word gives the size with its null bytes. */
  lemma DecodeFields(b: seq<Byte>)
    requires HEADER <= |b| && EventLen(b) <= |b|
    ensures EventLen(b) == 16 + Word(b, 12)
    ensures var ev := Decode(b);
            && ev.mask == Word(b, 4) && ev.cookie == Word(b, 8)
            && ev.wd == (if Word(b, 0) >= 0x8000_0000 then Word(b, 0) - 0x1_0000_0000 else Word(b, 0))
            && |ev.name| <= Word(b, 12) && (|ev.name| < Word(b, 12) ==> b[16 + |ev.name|] == 0)
            && forall i :: 0 <= i < |ev.name| ==> ev.name[i] as int == b[16 + i] != 0
  {
    hide FromLe, CString, Word;
    FromLeWord(b, 0);
    FromLeWord(b, 4);
    FromLeWord(b, 8);
    FromLeWord(b, 12);
    CStringIs(b[HEADER..EventLen(b)]);
  }

  // ----- decoding inverts encoding, whatever follows in the buffer -----

  lemma FieldValue(n: int)
    requires -1 <= n < TWO32
    ensures |Field(n)| == 4 && FromLe(Field(n)) == if n == -1 then TWO32 - 1 else n
  {
    Pow256Values();
    LeRoundTrip(if n == -1 then TWO32 - 1 else n, 4);
  }

  lemma {:induction false} CStringName(name: string, pad: nat)
    requires forall i :: 0 <= i < |name| ==> 0 < name[i] as int < 256
    requires name == "" || pad > 0
    ensures CString(NameBytes(name) + Zeros(pad)) == name
  {
    var b := NameBytes(name) + Zeros(pad);
    if name != "" {
      assert b[1..] == NameBytes(name[1..]) + Zeros(pad);
      if name[1..] == "" {
        assert CString(b[1..]) == "";
      } else {
        CStringName(name[1..], pad);
      }
      assert name == [name[0]] + name[1..];
    }
  }

  lemma Slices(a: seq<Byte>, b: seq<Byte>, c: seq<Byte>, d: seq<Byte>, e: seq<Byte>, rest: seq<Byte>)
    requires |a| == |b| == |c| == |d| == 4
    ensures var s := a + b + c + d + e + rest;
            s[0..4] == a && s[4..8] == b && s[8..12] == c && s[12..16] == d && s[16..16 + |e|] == e
  {
  }

  lemma DecodeEncode(p: Packet, rest: seq<Byte>)
    requires PacketOk(p)
    ensures var b := Encode(p) + rest;
            HEADER <= |Encode(p)| <= HEADER + NAME_MAX + 1 && EventLen(b) == |Encode(p)| && Decode(b) == p.ev
  {
    assert p.ev.wd >= -1;
    hide ToLe, FromLe, CString, KernelEvent, Field;
    var name := NameBytes(p.ev.name) + Zeros(p.pad);
    var len := |p.ev.name| + p.pad;
    var b := Encode(p) + rest;
    FieldValue(p.ev.wd);
    FieldValue(p.ev.mask);
    FieldValue(p.ev.cookie);
    FieldValue(len);
    Slices(Field(p.ev.wd), Field(p.ev.mask), Field(p.ev.cookie), Field(len), name, rest);
    assert b == Field(p.ev.wd) + Field(p.ev.mask) + Field(p.ev.cookie) + Field(len) + name + rest;
    CStringName(p.ev.name, p.pad);
  }
}
