/** Strings crossing from JavaScript (UTF-16) into the memory of the compiled web UI
    (UTF-8, section 3 of RFC 3629) and back: `passStringToWasm0`, `encodeString` and
    `getStringFromWasm0`. */
module StringPassing {
  import opened Prelude

  type Byte = x: nat | x < 0x100
  type Unit = x: nat | x < 0x10000

  predicate High(u: Unit) { 0xD800 <= u < 0xDC00 }

  predicate Low(u: Unit) { 0xDC00 <= u < 0xE000 }

  predicate Scalar(c: nat) { c < 0xD800 || 0xE000 <= c < 0x110000 }

  // hi and lo as digits in the given base.
  function Join(hi: nat, base: nat, lo: nat): nat { hi * base + lo }

  // ------------------------------------------------------------- from UTF-16 to UTF-8

  // Code units taken by the first character: a surrogate pair takes two.
  function Width(s: seq<Unit>): nat
    requires s != []
  {
    if |s| > 1 && High(s[0]) && Low(s[1]) then 2 else 1
  }

  // The first character; a surrogate without its partner reads as U+FFFD.
  function First(s: seq<Unit>): (c: nat)
    requires s != []
    ensures Scalar(c) && (Width(s) == 2 <==> c >= 0x10000)
  {
    if Width(s) == 2 then 0x10000 + Join(s[0] - 0xD800, 0x400, s[1] - 0xDC00)
    else if High(s[0]) || Low(s[0]) then 0xFFFD
    else s[0]
  }

  function Scalars(s: seq<Unit>): (cs: seq<nat>)
    ensures forall i | 0 <= i < |cs| :: Scalar(cs[i])
  {
    if s == [] then [] else [First(s)] + Scalars(s[Width(s)..])
  }

  function Encode(c: nat): seq<Byte>
    requires Scalar(c)
  {
    var c1 := c / 0x40;
    var c2 := c1 / 0x40;
    var c3 := c2 / 0x40;
    if c < 0x80 then [c]
    else if c < 0x800 then [0xC0 + c1, 0x80 + c % 0x40]
    else if c < 0x10000 then [0xE0 + c2, 0x80 + c1 % 0x40, 0x80 + c % 0x40]
    else [0xF0 + c3, 0x80 + c2 % 0x40, 0x80 + c1 % 0x40, 0x80 + c % 0x40]
  }

  // TextEncoder.encode
  function Utf8(s: seq<Unit>): seq<Byte> {
    if s == [] then [] else Encode(First(s)) + Utf8(s[Width(s)..])
  }

  // TextEncoder.encodeInto: whole characters only, as long as they fit.
  function EncodeInto(s: seq<Unit>, room: nat): seq<Byte> {
    if s == [] then []
    else
      var b := Encode(First(s));
      if |b| > room then [] else b + EncodeInto(s[Width(s)..], room - |b|)
  }

  lemma {:induction false} ThreePerUnit(s: seq<Unit>)
    ensures |Utf8(s)| <= 3 * |s|
  {
    if s != [] {
      ThreePerUnit(s[Width(s)..]);
    }
  }

  lemma {:induction false} EncodeIntoFits(s: seq<Unit>, room: nat)
    requires |Utf8(s)| <= room
    ensures EncodeInto(s, room) == Utf8(s)
  {
    if s != [] {
      EncodeIntoFits(s[Width(s)..], room - |Encode(First(s))|);
    }
  }

  // How many bytes the first character takes.
  function FirstSize(s: seq<Unit>): (n: nat)
    requires s != []
  {
    |Encode(First(s))|
  }

  lemma {:induction false} IntoCons(s: seq<Unit>, room: nat) returns (c: seq<Byte>)
    requires s != [] && FirstSize(s) <= room
    ensures |c| == FirstSize(s) && Width(s) <= |s| && Utf8(s) == c + Utf8(s[Width(s)..])
    ensures EncodeInto(s, room) == c + EncodeInto(s[Width(s)..], room - |c|)
  {
    c := Encode(First(s));
  }

  lemma {:induction false} IntoStops(s: seq<Unit>, room: nat)
    requires s == [] || FirstSize(s) > room
    ensures EncodeInto(s, room) == []
  {
  }

  lemma {:induction false} Joined(c: seq<Byte>, into: seq<Byte>, tail: seq<Byte>, all: seq<Byte>)
    requires into + tail == all
    ensures c + into + tail == c + all
  {
    assert c + into + tail == c + (into + tail);
  }

  // What encodeInto writes is the encoding of the string up to some character m, and that
  // is the end or the first character that does not fit.
  lemma {:induction false} EncodeIntoStops(s: seq<Unit>, room: nat) returns (m: nat)
    ensures m <= |s| && EncodeInto(s, room) + Utf8(s[m..]) == Utf8(s)
    ensures m < |s| ==> |EncodeInto(s, room)| + FirstSize(s[m..]) > room
  {
    if s == [] || FirstSize(s) > room {
      m := 0;
      IntoStops(s, room);
      assert s[0..] == s && [] + Utf8(s) == Utf8(s);
    } else {
      var c := IntoCons(s, room);
      var w := Width(s);
      var rest := s[w..];
      var n := EncodeIntoStops(rest, room - |c|);
      m := w + n;
      assert rest[n..] == s[m..];
      Joined(c, EncodeInto(rest, room - |c|), Utf8(rest[n..]), Utf8(rest));
    }
  }

  lemma {:induction false} EncodeIntoRoom(s: seq<Unit>, room: nat)
    ensures |EncodeInto(s, room)| <= room
  {
    if s != [] && |Encode(First(s))| <= room {
      EncodeIntoRoom(s[Width(s)..], room - |Encode(First(s))|);
    }
  }

  ghost predicate Ascii(s: seq<Unit>) {
    forall i | 0 <= i < |s| :: s[i] < 0x80
  }

  // Bytes of an ASCII string.
  function Narrow(s: seq<Unit>): (b: seq<Byte>)
    ensures |b| == |s|
  {
    if s == [] then [] else [if s[0] < 0x80 then s[0] else 0] + Narrow(s[1..])
  }

  lemma {:induction false} NarrowAt(s: seq<Unit>, i: nat)
    requires i < |s| && s[i] < 0x80
    ensures Narrow(s)[i] == s[i]
  {
    if i > 0 {
      NarrowAt(s[1..], i - 1);
    }
  }

  lemma {:induction false} AsciiFirst(s: seq<Unit>)
    requires s != [] && s[0] < 0x80
    ensures Utf8(s) == [s[0]] + Utf8(s[1..])
  {
  }

  lemma {:induction false} CutOneLess(s: seq<Unit>, k: nat)
    requires 0 < k <= |s| && Ascii(s[..k])
    ensures s[0] < 0x80 && Ascii(s[1..][..k - 1]) && s[k..] == s[1..][k - 1..]
    ensures Narrow(s[..k]) == [s[0]] + Narrow(s[1..][..k - 1])
  {
    assert s[0] == s[..k][0];
    assert s[..k][1..] == s[1..][..k - 1];
  }

  // The length of the longest ASCII prefix.
  function AsciiLen(s: seq<Unit>): (k: nat)
    ensures k <= |s|
  {
    if s == [] || s[0] > 0x7F then 0 else 1 + AsciiLen(s[1..])
  }

  lemma {:induction false} AsciiLenIs(s: seq<Unit>, k: nat)
    requires k <= |s| && Ascii(s[..k]) && (k < |s| ==> s[k] > 0x7F)
    ensures AsciiLen(s) == k
  {
    if k > 0 {
      assert s[0] == s[..k][0];
      assert forall i | 0 <= i < k - 1 :: s[1..][i] == s[..k][i + 1];
      AsciiLenIs(s[1..], k - 1);
    }
  }

  // The bytes set aside for a string of which k units were ASCII.
  function Room(s: seq<Unit>, k: nat): nat
    requires k <= |s|
  {
    k + 3 * (|s| - k)
  }

  lemma {:induction false} Regroup(x: Byte, head: seq<Byte>, tail: seq<Byte>)
    ensures [x] + (head + tail) == ([x] + head) + tail
  {
  }

  // Cutting after an ASCII prefix cuts no character in two.
  lemma {:induction false} AsciiPrefix(s: seq<Unit>, k: nat)
    requires k <= |s| && Ascii(s[..k])
    ensures Utf8(s) == Narrow(s[..k]) + Utf8(s[k..])
  {
    if k == 0 {
      assert s[0..] == s && s[..0] == [];
    } else {
      CutOneLess(s, k);
      AsciiPrefix(s[1..], k - 1);
      AsciiFirst(s);
      Regroup(s[0], Narrow(s[1..][..k - 1]), Utf8(s[k..]));
    }
  }

  // ------------------------------------------------------------- from UTF-8 to UTF-16

  predicate Tail(b: Byte) { 0x80 <= b < 0xC0 }

  // The first character of well-formed UTF-8 and the bytes it takes: shortest forms
  // only, no surrogates, nothing above U+10FFFF.
  function DecodeFirst(b: seq<Byte>): Option<(nat, nat)>
    requires b != []
  {
    if b[0] < 0x80 then Some((b[0], 1))
    else if 0xC0 <= b[0] < 0xE0 && |b| > 1 && Tail(b[1]) then
      Checked(Join(b[0] - 0xC0, 0x40, b[1] - 0x80), 0x80, 2)
    else if 0xE0 <= b[0] < 0xF0 && |b| > 2 && Tail(b[1]) && Tail(b[2]) then
      Checked(Join(Join(b[0] - 0xE0, 0x40, b[1] - 0x80), 0x40, b[2] - 0x80), 0x800, 3)
    else if 0xF0 <= b[0] < 0xF8 && |b| > 3 && Tail(b[1]) && Tail(b[2]) && Tail(b[3]) then
      Checked(Join(Join(Join(b[0] - 0xF0, 0x40, b[1] - 0x80), 0x40, b[2] - 0x80), 0x40, b[3] - 0x80), 0x10000, 4)
    else None
  }

  function Checked(c: nat, least: nat, n: nat): Option<(nat, nat)> {
    if c >= least && Scalar(c) then Some((c, n)) else None
  }

  function Decode(b: seq<Byte>): Option<seq<nat>> {
    if b == [] then Some([])
    else
      match DecodeFirst(b)
      case None => None
      case Some((c, n)) =>
        if n == 0 || n > |b| then None
        else match Decode(b[n..])
          case None => None
          case Some(cs) => Some([c] + cs)
  }

  lemma {:induction false} DecodeEncode(c: nat, rest: seq<Byte>)
    requires Scalar(c)
    ensures DecodeFirst(Encode(c) + rest) == Some((c, |Encode(c)|))
  {
    var e := Encode(c);
    var b := e + rest;
    assert forall i | 0 <= i < |e| :: b[i] == e[i];
    var c1 := c / 0x40;
    var c2 := c1 / 0x40;
    assert c == Join(c1, 0x40, c % 0x40) && c1 == Join(c2, 0x40, c1 % 0x40) && c2 == Join(c2 / 0x40, 0x40, c2 % 0x40);
  }

  // What is written decodes, and to the characters of the string.
  lemma {:induction false} WrittenReadsBack(s: seq<Unit>)
    ensures Decode(Utf8(s)) == Some(Scalars(s))
  {
    if s != [] {
      var c, rest := First(s), Utf8(s[Width(s)..]);
      WrittenReadsBack(s[Width(s)..]);
      DecodeEncode(c, rest);
      assert (Encode(c) + rest)[|Encode(c)|..] == rest;
    }
  }

  // A JavaScript string of these characters.
  function Units(c: nat): seq<Unit>
    requires Scalar(c)
  {
    if c < 0x10000 then [c] else [0xD800 + (c - 0x10000) / 0x400, 0xDC00 + (c - 0x10000) % 0x400]
  }

  function Utf16(cs: seq<nat>): seq<Unit>
    requires forall i | 0 <= i < |cs| :: Scalar(cs[i])
  {
    if cs == [] then [] else Units(cs[0]) + Utf16(cs[1..])
  }

  // Every surrogate has its partner.
  predicate Paired(s: seq<Unit>) {
    s == [] || ((Width(s) == 2 || !(High(s[0]) || Low(s[0]))) && Paired(s[Width(s)..]))
  }

  // The string itself comes back exactly when its surrogates are paired.
  lemma {:induction false} StringRoundTripIff(s: seq<Unit>)
    ensures Utf16(Scalars(s)) == s <==> Paired(s)
  {
    if s != [] {
      var rest := s[Width(s)..];
      StringRoundTripIff(rest);
      var back := Utf16(Scalars(rest));
      assert Scalars(s)[1..] == Scalars(rest);
      assert Utf16(Scalars(s)) == Units(First(s)) + back;
      assert s == s[..Width(s)] + rest;
      if Units(First(s)) == s[..Width(s)] {
        assert Utf16(Scalars(s))[Width(s)..] == back;
      } else {
        assert Utf16(Scalars(s))[0] != s[0];
      }
    }
  }

  // A surrogate without its partner next to it.
  predicate Lone(s: seq<Unit>, i: nat)
    requires i < |s|
  {
    || (High(s[i]) && !(i + 1 < |s| && Low(s[i + 1])))
    || (Low(s[i]) && !(i > 0 && High(s[i - 1])))
  }

  // What comes back is the string unit by unit, with U+FFFD for each lone surrogate.
  lemma {:induction false} StringMended(s: seq<Unit>, i: nat)
    requires i < |s|
    ensures |Utf16(Scalars(s))| == |s|
    ensures Utf16(Scalars(s))[i] == if Lone(s, i) then 0xFFFD else s[i]
  {
    var w := Width(s);
    var rest := s[w..];
    assert Scalars(s)[1..] == Scalars(rest);
    assert Utf16(Scalars(s)) == Units(First(s)) + Utf16(Scalars(rest));
    if i >= w {
      StringMended(rest, i - w);
      assert Lone(rest, i - w) <==> Lone(s, i);
    } else if rest != [] {
      StringMended(rest, 0);
    }
  }

  // ----------------------------------------------------------------------- the memory

  // An answer of the allocator: a pointer, and the memory as it is afterwards.
  datatype Block = Block(ptr: nat, memory: seq<Byte>)

  // mem with bs written at ptr.
  function Blit(mem: seq<Byte>, ptr: nat, bs: seq<Byte>): (r: seq<Byte>)
    requires ptr + |bs| <= |mem|
    ensures |r| == |mem|
  {
    seq(|mem|, i requires 0 <= i < |mem| => if ptr <= i < ptr + |bs| then bs[i - ptr] else mem[i])
  }

  lemma {:induction false} BlitAt(mem: seq<Byte>, ptr: nat, bs: seq<Byte>, i: nat)
    requires ptr + |bs| <= |mem| && i < |mem|
    ensures Blit(mem, ptr, bs)[i] == if ptr <= i < ptr + |bs| then bs[i - ptr] else mem[i]
  {
  }

  class Memory {
    var mem: seq<Byte>
    var vectorLen: nat

    constructor ()
      ensures mem == [] && vectorLen == 0
    {
      mem, vectorLen := [], 0;
    }

    method Malloc(size: nat, answer: Block) returns (ptr: nat)
      requires answer.ptr + size <= |answer.memory|
      modifies this`mem
      ensures ptr == answer.ptr && mem == answer.memory
    {
      ptr, mem := answer.ptr, answer.memory;
    }

    // Moves the first oldSize bytes of the block along.
    method Realloc(old_: nat, oldSize: nat, newSize: nat, answer: Block) returns (ptr: nat)
      requires old_ + oldSize <= |mem| && oldSize <= newSize && answer.ptr + newSize <= |answer.memory|
      modifies this`mem
      ensures ptr == answer.ptr
      ensures mem == Blit(answer.memory, answer.ptr, old(mem)[old_..old_ + oldSize])
    {
      ptr := answer.ptr;
      mem := Blit(answer.memory, ptr, mem[old_..old_ + oldSize]);
    }

    // Encode into a window of the given size: the same either way if the string fits. If
    // it does not, encodeInto stops before the character that is too much, and the
    // fallback, which encodes first, throws.
    method EncodeString(arg: seq<Unit>, at: nat, size: nat, hasEncodeInto: bool) returns (written: Result<nat>)
      requires at + size <= |mem|
      modifies this`mem
      ensures |Utf8(arg)| <= size ==> written == Ok(|Utf8(arg)|) && mem == Blit(old(mem), at, Utf8(arg))
      ensures |Utf8(arg)| > size && !hasEncodeInto ==> written == Err && mem == old(mem)
      ensures |Utf8(arg)| > size && hasEncodeInto ==>
                && |EncodeInto(arg, size)| <= size && written == Ok(|EncodeInto(arg, size)|)
                && mem == Blit(old(mem), at, EncodeInto(arg, size))
    {
      EncodeIntoRoom(arg, size);
      if |Utf8(arg)| <= size {
        EncodeIntoFits(arg, size);
      }
      var buf := if hasEncodeInto then EncodeInto(arg, size) else Utf8(arg);
      if |buf| > size {
        return Err;
      }
      mem := Blit(mem, at, buf);
      written := Ok(|buf|);
    }

    // The call that passStringToWasm0 makes: there is room, so nothing is cut or thrown.
    method EncodeFitting(arg: seq<Unit>, at: nat, size: nat, hasEncodeInto: bool, ghost text: seq<Byte>)
      returns (written: nat)
      requires at + size <= |mem| && 3 * |arg| <= size && text == Utf8(arg)
      modifies this`mem
      ensures written == |text| <= size && mem == Blit(old(mem), at, text)
    {
      ThreePerUnit(arg);
      var w := EncodeString(arg, at, size, hasEncodeInto);
      written := w.value;
    }

    // The copying loop: mem[ptr + offset] = code, up to the first unit above 0x7F.
    method CopyAscii(arg: seq<Unit>, ptr: nat) returns (offset: nat)
      requires ptr + |arg| <= |mem|
      modifies this`mem
      ensures offset <= |arg| && Ascii(arg[..offset]) && (offset < |arg| ==> arg[offset] > 0x7F)
      ensures mem == Blit(old(mem), ptr, Narrow(arg[..offset]))
    {
      offset := 0;
      while offset < |arg| && arg[offset] <= 0x7F
        invariant offset <= |arg| && Ascii(arg[..offset]) && |mem| == |old(mem)|
        invariant forall i | 0 <= i < |mem| ::
                    mem[i] == if ptr <= i < ptr + offset then arg[i - ptr] else old(mem)[i]
      {
        mem := mem[ptr + offset := arg[offset]];
        offset := offset + 1;
      }
      ghost var want := Blit(old(mem), ptr, Narrow(arg[..offset]));
      forall i | 0 <= i < |mem| ensures mem[i] == want[i] {
        BlitAt(old(mem), ptr, Narrow(arg[..offset]), i);
        if ptr <= i < ptr + offset {
          NarrowAt(arg[..offset], i - ptr);
        }
      }
    }

    // Grow the block to three bytes per unit left.
    method GrowBlock(len: nat, ptr0: nat, offset: nat, second: Block) returns (ptr: nat)
      requires ptr0 + len <= |mem| && offset < len && second.ptr + offset + 3 * (len - offset) <= |second.memory|
      modifies this`mem
      ensures ptr == second.ptr && mem == Blit(second.memory, ptr, old(mem)[ptr0..ptr0 + len])
    {
      ptr := Realloc(ptr0, len, offset + (len - offset) * 3, second);
    }

    // Encode what is left, of a string of len units, into the grown block.
    method EncodeRest(rest: seq<Unit>, len: nat, ptr0: nat, offset: nat, hasEncodeInto: bool, second: Block,
        ghost text: seq<Byte>)
      returns (ptr: nat, end: nat)
      requires ptr0 + len <= |mem| && offset < len == offset + |rest|
      requires second.ptr + offset + 3 * |rest| <= |second.memory| && text == Utf8(rest) && |text| <= 3 * |rest|
      modifies this`mem
      ensures ptr == second.ptr && end == offset + |text|
      ensures mem == Blit(Blit(second.memory, ptr, old(mem)[ptr0..ptr0 + len]), ptr + offset, text)
    {
      ptr := GrowBlock(len, ptr0, offset, second);
      var written := EncodeFitting(rest, ptr + offset, 3 * |rest|, hasEncodeInto, text);
      end := offset + written;
    }

    // Slice off what was copied.
    method EncodeTail(arg: seq<Unit>, ptr0: nat, offset: nat, hasEncodeInto: bool, second: Block, ghost text: seq<Byte>)
      returns (ptr: nat, end: nat)
      requires ptr0 + |arg| <= |mem| && offset < |arg| && second.ptr + Room(arg, offset) <= |second.memory|
      requires text == Utf8(arg[offset..]) && |text| <= 3 * (|arg| - offset)
      modifies this`mem
      ensures ptr == second.ptr && end == offset + |text|
      ensures mem == AfterRest(second, arg, old(mem), ptr0, offset, text)
    {
      ptr, end := EncodeRest(arg[offset..], |arg|, ptr0, offset, hasEncodeInto, second, text);
    }

    // Whichever path is taken, the returned block holds exactly the UTF-8 form of the
    // string, of the announced length, and no byte outside the block was written. The
    // second block is asked for only after an ASCII prefix that ends early.
    method PassString(arg: seq<Unit>, hasRealloc: bool, hasEncodeInto: bool, first: Block, second: Block)
      returns (ptr: nat)
      requires first.ptr + (if hasRealloc then |arg| else |Utf8(arg)|) <= |first.memory|
      requires second.ptr + Room(arg, AsciiLen(arg)) <= |second.memory|
      modifies this
      ensures vectorLen == |Utf8(arg)|
      ensures (ptr == first.ptr && ptr + vectorLen <= |first.memory| && mem == Blit(first.memory, ptr, Utf8(arg)))
              || (ptr == second.ptr && ptr + vectorLen <= |second.memory|
                  && Wrote(second, Utf8(arg), Room(arg, AsciiLen(arg)), mem))
    {
      ThreePerUnit(arg);
      if !hasRealloc {
        var buf := Utf8(arg);
        ptr := Malloc(|buf|, first);
        mem := Blit(mem, ptr, buf);
        vectorLen := |buf|;
        return;
      }
      ptr := Malloc(|arg|, first);
      var offset := CopyAscii(arg, ptr);
      AsciiLenIs(arg, offset);
      AsciiPrefix(arg, offset);
      if offset != |arg| {
        BlitStarts(first.memory, ptr, Narrow(arg[..offset]));
        RestWritten(second, arg, mem, ptr, offset);
        ptr, offset := EncodeTail(arg, ptr, offset, hasEncodeInto, second, Utf8(arg[offset..]));
      } else {
        assert arg[offset..] == [] && arg[..offset] == arg;
      }
      vectorLen := offset;
    }
  }

  // The block holds the text, and bytes outside the room asked for are the allocator's.
  ghost predicate Wrote(b: Block, text: seq<Byte>, room: nat, mem: seq<Byte>) {
    && |mem| == |b.memory| && b.ptr + |text| <= |mem|
    && (forall i | 0 <= i < |mem| :: WroteAt(b, text, room, mem, i))
  }

  ghost predicate WroteAt(b: Block, text: seq<Byte>, room: nat, mem: seq<Byte>, i: nat)
    requires i < |mem| == |b.memory|
  {
    && (b.ptr <= i < b.ptr + |text| ==> mem[i] == text[i - b.ptr])
    && (!(b.ptr <= i < b.ptr + room) ==> mem[i] == b.memory[i])
  }

  lemma {:induction false} TailFits(arg: seq<Unit>, offset: nat)
    requires offset < |arg| && Ascii(arg[..offset])
    ensures Utf8(arg) == Narrow(arg[..offset]) + Utf8(arg[offset..])
    ensures offset + |Utf8(arg[offset..])| == |Utf8(arg)| <= Room(arg, offset)
  {
    AsciiPrefix(arg, offset);
    ThreePerUnit(arg[offset..]);
  }

  lemma {:induction false} TwoWrites(b: Block, head: seq<Byte>, tail: seq<Byte>, moved: seq<Byte>, i: nat)
    requires |head| <= |moved| && |head| + |tail| <= |b.memory| - b.ptr && b.ptr + |moved| <= |b.memory|
    requires forall j | 0 <= j < |head| :: moved[j] == head[j]
    requires i < |b.memory|
    ensures var mem := Blit(Blit(b.memory, b.ptr, moved), b.ptr + |head|, tail);
            && (b.ptr <= i < b.ptr + |head + tail| ==> mem[i] == (head + tail)[i - b.ptr])
            && (!(b.ptr <= i < b.ptr + |head| + |tail|) && !(b.ptr <= i < b.ptr + |moved|) ==> mem[i] == b.memory[i])
  {
    BlitAt(b.memory, b.ptr, moved, i);
    BlitAt(Blit(b.memory, b.ptr, moved), b.ptr + |head|, tail, i);
  }

  // The bytes bs are in memory at ptr.
  ghost predicate Starts(mem: seq<Byte>, ptr: nat, bs: seq<Byte>) {
    ptr + |bs| <= |mem| && forall i | 0 <= i < |bs| :: mem[ptr + i] == bs[i]
  }

  lemma {:induction false} BlitStarts(mem: seq<Byte>, ptr: nat, bs: seq<Byte>)
    requires ptr + |bs| <= |mem|
    ensures Starts(Blit(mem, ptr, bs), ptr, bs)
  {
    forall i | 0 <= i < |bs| ensures Blit(mem, ptr, bs)[ptr + i] == bs[i] {
      BlitAt(mem, ptr, bs, ptr + i);
    }
  }

  // The block moved to its new place, and the rest of the string encoded behind the
  // ASCII prefix.
  ghost function AfterRest(b: Block, arg: seq<Unit>, mem: seq<Byte>, ptr: nat, offset: nat, text: seq<Byte>): seq<Byte>
    requires ptr + |arg| <= |mem| && offset < |arg| && b.ptr + Room(arg, offset) <= |b.memory|
    requires |text| <= 3 * (|arg| - offset)
  {
    Blit(Blit(b.memory, b.ptr, mem[ptr..ptr + |arg|]), b.ptr + offset, text)
  }

  lemma {:induction false} CutStarts(mem: seq<Byte>, ptr: nat, len: nat, bs: seq<Byte>)
    requires Starts(mem, ptr, bs) && |bs| <= len && ptr + len <= |mem|
    ensures Starts(mem[ptr..ptr + len], 0, bs)
  {
    forall i | 0 <= i < |bs| ensures mem[ptr..ptr + len][0 + i] == bs[i] {
      assert mem[ptr + i] == bs[i];
    }
  }

  // The head moved with its block and the tail written behind it are the whole text.
  lemma {:induction false} AllWritten(b: Block, head: seq<Byte>, tail: seq<Byte>, moved: seq<Byte>, room: nat)
    requires Starts(moved, 0, head) && |head| + |tail| <= room && |moved| <= room && b.ptr + room <= |b.memory|
    ensures var out := Blit(Blit(b.memory, b.ptr, moved), b.ptr + |head|, tail);
            Wrote(b, head + tail, room, out)
  {
    var out := Blit(Blit(b.memory, b.ptr, moved), b.ptr + |head|, tail);
    assert forall j | 0 <= j < |head| :: moved[0 + j] == head[j];
    forall i | 0 <= i < |out| ensures WroteAt(b, head + tail, room, out, i) {
      TwoWrites(b, head, tail, moved, i);
    }
  }

  lemma {:induction false} TailWritten(b: Block, arg: seq<Unit>, mem: seq<Byte>, ptr: nat, offset: nat,
      head: seq<Byte>, tail: seq<Byte>)
    requires ptr + |arg| <= |mem| && |head| == offset < |arg| && b.ptr + Room(arg, offset) <= |b.memory|
    requires Starts(mem[ptr..ptr + |arg|], 0, head) && |tail| <= 3 * (|arg| - offset)
    ensures Wrote(b, head + tail, Room(arg, offset), AfterRest(b, arg, mem, ptr, offset, tail))
  {
    AllWritten(b, head, tail, mem[ptr..ptr + |arg|], Room(arg, offset));
  }

  lemma {:induction false} RestWritten(b: Block, arg: seq<Unit>, mem: seq<Byte>, ptr: nat, offset: nat)
    requires ptr + |arg| <= |mem| && offset < |arg| && offset == AsciiLen(arg) && Ascii(arg[..offset])
    requires Starts(mem, ptr, Narrow(arg[..offset])) && b.ptr + Room(arg, offset) <= |b.memory|
    ensures offset + |Utf8(arg[offset..])| == |Utf8(arg)| <= Room(arg, offset)
    ensures |Utf8(arg[offset..])| <= 3 * (|arg| - offset)
    ensures Wrote(b, Utf8(arg), Room(arg, offset), AfterRest(b, arg, mem, ptr, offset, Utf8(arg[offset..])))
  {
    TailFits(arg, offset);
    var head := Narrow(arg[..offset]);
    CutStarts(mem, ptr, |arg|, head);
    TailWritten(b, arg, mem, ptr, offset, head, Utf8(arg[offset..]));
  }
}
