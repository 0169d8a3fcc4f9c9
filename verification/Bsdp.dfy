/**
 The whole vendor option: its size, what comes back when it is parsed, and the encoder and
 parser in their imperative form (midlayer/abp.go).
 */
module Bsdp {
  import opened BsdpModel
  import opened Wrappers

  /** What the encoder is made for: an IPv4 address or none, and types below 0x80. */
  predicate Encodable(o: Opts) {
    && (|o.srvId| == 0 || |o.srvId| == 4)
    && (o.defaultImage.Some? ==> o.defaultImage.value.osType < 128)
    && (o.selectedImage.Some? ==> o.selectedImage.value.osType < 128)
    && (forall i :: 0 <= i < |o.images| ==> o.images[i].osType < 128)
  }

  /** The images that are sent. */
  function Sent(o: Opts): seq<Image> {
    Prefix(o.images, 255 - |Head(o)|)
  }

  lemma HeadLength(o: Opts)
    requires |o.srvId| == 0 || |o.srvId| == 4
    ensures |Head(o)| <= 29
  {
  }

  lemma {:induction false} OneOfMany(parts: seq<seq<Byte>>, i: nat)
    requires i < |parts|
    ensures |parts[i]| <= |Concat(parts)|
  {
    if i > 0 {
      OneOfMany(parts[1..], i - 1);
    }
  }

  lemma OptionsPrefix(images: seq<Image>, k: nat)
    requires k <= |images|
    ensures Options(images[..k]) == Options(images)[..k]
  {
  }

  /** What is sent fits, and so has no name long enough to be cut or to overflow its length byte. */
  lemma SentIsSmall(o: Opts)
    requires Encodable(o)
    ensures |Head(o)| + 2 + |Body(Sent(o))| <= 255
    ensures Small(Sent(o))
  {
    HeadLength(o);
    SentFits(o.images, 255 - |Head(o)|);
  }

  lemma SentFits(images: seq<Image>, budget: int)
    requires 2 <= budget <= 255
    requires forall i :: 0 <= i < |images| ==> images[i].osType < 128
    ensures 2 + |Body(Prefix(images, budget))| <= budget
    ensures Small(Prefix(images, budget))
  {
    var parts := Options(images);
    var k := Fitting(parts, 2, budget);
    LongestFits(parts, 2, budget, k);
    OptionsPrefix(images, k);
    forall i | 0 <= i < k ensures |images[i].name| <= 250 {
      OneOfMany(parts[..k], i);
      assert parts[..k][i] == ImageOption(images[i]);
    }
  }

  /** The list as it is sent; nothing at all when there is none. */
  function Tail(listed: bool, body: seq<Byte>): seq<Byte> {
    if listed then [9, |body| % 256] + body else []
  }

  /** Never more than a DHCP option can hold, and the list's length byte is exact. */
  lemma EncodingFits(o: Opts)
    requires Encodable(o)
    ensures |Encode(o)| <= 255 && Encode(o) == Head(o) + Tail(o.images != [], Body(Sent(o)))
    ensures |Body(Sent(o))| < 256 && (o.images == [] ==> Body(Sent(o)) == [])
  {
    SentIsSmall(o);
  }

  // ----- decoding field by field -----

  function Field(code: Byte, val: seq<Byte>): seq<Byte>
    requires |val| < 256
  {
    if val == [] then [] else [code, |val|] + val
  }

  function SetField(o: Opts, code: Byte, val: seq<Byte>): Option<Opts> {
    if val == [] then Some(o) else Set(o, code, val)
  }

  lemma FieldDecodes(o: Opts, code: Byte, val: seq<Byte>, rest: seq<Byte>)
    requires |val| < 256
    ensures Decode(o, Field(code, val) + rest)
         == if SetField(o, code, val).None? then None else Decode(SetField(o, code, val).value, rest)
  {
    if val != [] {
      var opts := Field(code, val) + rest;
      assert opts[2..2 + |val|] == val && opts[2 + |val|..] == rest;
    } else {
      assert Field(code, val) + rest == rest;
    }
  }

  function WordBytes(w: Word): seq<Byte> {
    if w > 0 then [Hi(w), Lo(w)] else []
  }

  function IdBytes(i: Option<Image>): seq<Byte> {
    if i.None? then [] else Id(i.value)
  }

  function MsgBytes(m: Byte): seq<Byte> {
    if m > 0 then [m] else []
  }

  function Decoded(i: Option<Image>): Option<Image> {
    if i.None? then None else ToImage(Id(i.value))
  }

  /** One more field after a prefix whose decoding is known. */
  lemma OneMore(pre: seq<Byte>, d: Opts, code: Byte, val: seq<Byte>, d': Opts, rest: seq<Byte>)
    requires |val| < 256 && SetField(d, code, val) == Some(d')
    requires Decode(BLANK, pre + (Field(code, val) + rest)) == Decode(d, Field(code, val) + rest)
    ensures Decode(BLANK, pre + Field(code, val) + rest) == Decode(d', rest)
  {
    FieldDecodes(d, code, val, rest);
    assert pre + Field(code, val) + rest == pre + (Field(code, val) + rest);
  }

  function Of1(o: Opts): Opts { BLANK.(msgType := o.msgType) }

  function Of2(o: Opts): Opts { Of1(o).(version := 0x101) }

  function Of3(o: Opts): Opts { Of2(o).(srvId := o.srvId) }

  function Of4(o: Opts): Opts { Of3(o).(prio := o.prio) }

  function Of7(o: Opts): Opts { Of4(o).(defaultImage := Decoded(o.defaultImage)) }

  /** What the fields before the image list decode to. */
  function HeadOf(o: Opts): Opts { Of7(o).(selectedImage := Decoded(o.selectedImage)) }

  lemma Decodes1(o: Opts, rest: seq<Byte>)
    ensures Decode(BLANK, Head1(o) + rest) == Decode(Of1(o), rest)
  {
    FieldDecodes(BLANK, 1, MsgBytes(o.msgType), rest);
  }

  lemma Decodes2(o: Opts, rest: seq<Byte>)
    ensures Decode(BLANK, Head2(o) + rest) == Decode(Of2(o), rest)
  {
    Decodes1(o, Field(2, [1, 1]) + rest);
    OneMore(Head1(o), Of1(o), 2, [1, 1], Of2(o), rest);
  }

  lemma Decodes3(o: Opts, rest: seq<Byte>)
    requires |o.srvId| == 0 || |o.srvId| == 4
    ensures Decode(BLANK, Head3(o) + rest) == Decode(Of3(o), rest)
  {
    Decodes2(o, Field(3, o.srvId) + rest);
    OneMore(Head2(o), Of2(o), 3, o.srvId, Of3(o), rest);
  }

  lemma SetPrio(o: Opts, w: Word)
    requires o.prio == 0
    ensures SetField(o, 4, WordBytes(w)) == Some(o.(prio := w))
  {
    assert WordAt(Hi(w), Lo(w)) == w;
  }

  lemma Decodes4(o: Opts, rest: seq<Byte>)
    requires |o.srvId| == 0 || |o.srvId| == 4
    ensures Decode(BLANK, Head4(o) + rest) == Decode(Of4(o), rest)
  {
    Decodes3(o, Field(4, WordBytes(o.prio)) + rest);
    SetPrio(Of3(o), o.prio);
    OneMore(Head3(o), Of3(o), 4, WordBytes(o.prio), Of4(o), rest);
  }

  lemma Decodes7(o: Opts, rest: seq<Byte>)
    requires |o.srvId| == 0 || |o.srvId| == 4
    ensures Decode(BLANK, Head7(o) + rest) == Decode(Of7(o), rest)
  {
    Decodes4(o, Field(7, IdBytes(o.defaultImage)) + rest);
    OneMore(Head4(o), Of4(o), 7, IdBytes(o.defaultImage), Of7(o), rest);
  }

  lemma HeadDecodes(o: Opts, rest: seq<Byte>)
    requires |o.srvId| == 0 || |o.srvId| == 4
    ensures Decode(BLANK, Head(o) + rest) == Decode(HeadOf(o), rest)
  {
    Decodes7(o, Field(8, IdBytes(o.selectedImage)) + rest);
    OneMore(Head7(o), Of7(o), 8, IdBytes(o.selectedImage), HeadOf(o), rest);
  }

  lemma ListDecodes(d: Opts, body: seq<Byte>)
    requires |body| < 256 && d.images == []
    ensures Decode(d, [9, |body|] + body)
         == if Fill(body).None? then None else Some(d.(images := Fill(body).value))
  {
    if body != [] {
      FieldDecodes(d, 9, body, []);
      assert Field(9, body) + [] == [9, |body|] + body;
    }
  }

  predicate SameId(i: Option<Image>, d: Option<Image>) {
    if i.None? then d.None?
    else d.Some? && d.value.install == i.value.install && d.value.index == i.value.index
  }

  /** The decoded option says what was meant. */
  predicate Faithful(o: Opts, d: Opts) {
    && d.msgType == o.msgType && d.srvId == o.srvId && d.prio == o.prio
    && SameId(o.defaultImage, d.defaultImage) && SameId(o.selectedImage, d.selectedImage)
    && Views(d.images) == Views(Sent(o))
  }

  lemma HeadFaithful(o: Opts)
    requires Encodable(o)
    ensures SameId(o.defaultImage, Decoded(o.defaultImage)) && SameId(o.selectedImage, Decoded(o.selectedImage))
  {
    if o.defaultImage.Some? {
      IdRoundTrip(o.defaultImage.value);
    }
    if o.selectedImage.Some? {
      IdRoundTrip(o.selectedImage.value);
    }
  }

  lemma TailDecodes(listed: bool, body: seq<Byte>, d: Opts)
    requires |body| < 256 && d.images == [] && (!listed ==> body == [])
    ensures Decode(d, Tail(listed, body))
         == if Fill(body).None? then None else Some(d.(images := Fill(body).value))
  {
    if listed {
      assert |body| % 256 == |body|;
      ListDecodes(d, body);
    } else {
      assert d.(images := []) == d;
    }
  }

  lemma WholeDecodes(o: Opts)
    requires Encodable(o)
    ensures Decode(BLANK, Encode(o))
         == if Fill(Body(Sent(o))).None? then None else Some(HeadOf(o).(images := Fill(Body(Sent(o))).value))
  {
    EncodingFits(o);
    HeadDecodes(o, Tail(o.images != [], Body(Sent(o))));
    TailDecodes(o.images != [], Body(Sent(o)), HeadOf(o));
  }

  /**
   Round trip: parsing the encoding gives back the message type, the server, the priority, the
   two image ids and exactly the images that fit, just when their nameless images align.
   */
  lemma OptionRoundTrip(o: Opts)
    requires Encodable(o)
    ensures var d := Decode(BLANK, Encode(o));
            d.Some? && Faithful(o, d.value) <==> NamesAlign(Sent(o))
  {
    SentIsSmall(o);
    WholeDecodes(o);
    ListRoundTrip(Sent(o));
    HeadFaithful(o);
  }

  /** In particular when every image has a name. */
  lemma NamedRoundTrip(o: Opts)
    requires Encodable(o) && forall i :: 0 <= i < |o.images| ==> o.images[i].name != []
    ensures Decode(BLANK, Encode(o)).Some? && Faithful(o, Decode(BLANK, Encode(o)).value)
  {
    OptionRoundTrip(o);
    forall i | 0 <= i < |Sent(o)| ensures AlignedAt(Sent(o), i) {
      assert Sent(o)[i] == o.images[i];
    }
  }

  // ----- the bytes themselves -----

  /** The fields as they are sent, in order: code, length, value, numbers with the high byte first. */
  lemma WireForm(o: Opts)
    requires |o.srvId| == 0 || |o.srvId| == 4
    ensures Head(o) == Field(1, MsgBytes(o.msgType)) + Field(2, [1, 1]) + Field(3, o.srvId)
                       + Field(4, WordBytes(o.prio)) + Field(7, IdBytes(o.defaultImage)) + Field(8, IdBytes(o.selectedImage))
    ensures o.images != [] ==> Encode(o)[|Head(o)|] == 9
  {
  }

  /** An image id: type and installer flag, a zero, and the index. */
  lemma IdBytesAre(i: Image)
    requires i.osType < 128
    ensures |Id(i)| == 4 && Id(i)[1] == 0 && Id(i)[2] as int * 256 + Id(i)[3] as int == i.index
    ensures Id(i)[0] == if i.install then i.osType + 128 else i.osType
  {
  }

  /** What each code means to the parser. */
  lemma NumberFields(o: Opts, x: Byte, y: Byte)
    ensures Decode(o, [1, 1] + [x]) == Some(o.(msgType := x))
    ensures Decode(o, [2, 2] + [x, y]) == Some(o.(version := WordAt(x, y)))
    ensures Decode(o, [4, 2] + [x, y]) == Some(o.(prio := WordAt(x, y)))
    ensures Decode(o, [5, 2] + [x, y]) == Some(o.(replyPort := WordAt(x, y)))
  {
    OneField(o, 1, [x]);
    OneField(o, 2, [x, y]);
    OneField(o, 4, [x, y]);
    OneField(o, 5, [x, y]);
  }

  lemma ServerField(o: Opts, id: seq<Byte>)
    requires |id| == 4
    ensures Decode(o, [3, 4] + id) == Some(o.(srvId := id))
  {
    OneField(o, 3, id);
  }

  lemma ImageFields(o: Opts, id: seq<Byte>)
    requires |id| == 4
    ensures var i := Some(Image(id[0] >= 128, if id[0] >= 128 then 255 else 127, WordAt(id[2], id[3]), []));
            Decode(o, [7, 4] + id) == Some(o.(defaultImage := i)) && Decode(o, [8, 4] + id) == Some(o.(selectedImage := i))
  {
    OneField(o, 7, id);
    OneField(o, 8, id);
  }

  /** Unknown codes are skipped, and a value that is cut short ends the parse with what was read so far. */
  lemma UnknownOrCut(o: Opts, code: Byte, val: seq<Byte>, len: Byte)
    requires 0 < |val| < 256
    ensures code !in {1, 2, 3, 4, 5, 7, 8, 9} ==> Decode(o, [code, |val|] + val) == Some(o)
    ensures |val| < len ==> Decode(o, [code, len] + val) == Some(o)
  {
    OneField(o, code, val);
  }

  lemma OneField(o: Opts, code: Byte, val: seq<Byte>)
    requires 0 < |val| < 256
    ensures Decode(o, [code, |val|] + val) == Set(o, code, val)
  {
    FieldDecodes(o, code, val, []);
    assert Field(code, val) + [] == [code, |val|] + val;
  }

  // ----- the imperative form -----

  lemma FittingNext(parts: seq<seq<Byte>>, i: nat, used: nat, budget: int)
    requires i < |parts|
    ensures Fitting(parts[i..], used, budget)
         == if |parts[i]| + used > budget then 0
            else 1 + Fitting(parts[i + 1..], used + |parts[i]|, budget)
  {
    assert parts[i..][0] == parts[i] && parts[i..][1..] == parts[i + 1..];
  }

  lemma TakeOne(parts: seq<seq<Byte>>, k: nat)
    requires k < |parts|
    ensures Concat(parts[..k + 1]) == Concat(parts[..k]) + parts[k]
  {
    assert parts[..k + 1] == parts[..k] + [parts[k]];
    ConcatAppend(parts[..k], parts[k]);
  }

  method OneOption(images: seq<Image>, k: nat) returns (buf: seq<Byte>)
    requires k < |images|
    ensures buf == Options(images)[k]
  {
    buf := ImageOption(images[k]);
  }

  method TakeFitting(images: seq<Image>, budget: int) returns (body: seq<Byte>, k: nat)
    ensures k == Fitting(Options(images), 2, budget) && body == Concat(Options(images)[..k])
  {
    body, k := [], 0;
    ghost var parts := Options(images);
    assert parts[0..] == parts;
    while k < |images|
      invariant k <= |images| && body == Concat(parts[..k])
      invariant Fitting(parts, 2, budget) == k + Fitting(parts[k..], |body| + 2, budget)
    {
      var buf := OneOption(images, k);
      FittingNext(parts, k, |body| + 2, budget);
      if |buf| + |body| + 2 > budget {
        break;
      }
      TakeOne(parts, k);
      body := body + buf;
      k := k + 1;
    }
  }

  /** Images are appended while they fit; the length byte is filled in at the end. */
  method EncodeList(images: seq<Image>, budget: int) returns (res: seq<Byte>)
    ensures res == ListOption(images, budget)
  {
    var body, k := TakeFitting(images, budget);
    OptionsPrefix(images, k);
    res := [9, |body| % 256] + body;
  }

  /** Entries are cut off the front while more than an id is left. */
  method FillImages(input: seq<Byte>) returns (r: Option<seq<Image>>)
    ensures r == Fill(input)
  {
    var buf := input;
    var res := [];
    assert Fill(buf).Some? ==> res + Fill(buf).value == Fill(buf).value;
    while |buf| > 4
      invariant Fill(input) == if Fill(buf).None? then None else Some(res + Fill(buf).value)
      decreases |buf|
    {
      var n := EntryLength(buf);
      if n > |buf| || n < 4 {
        return None;
      }
      var val := buf[..n];
      ghost var was := Fill(buf);
      buf := buf[n..];
      var bo := ToImage(val);
      if was.Some? {
        assert res + was.value == (res + [bo.value]) + Fill(buf).value;
      }
      res := res + [bo.value];
    }
    assert res + [] == res;
    return Some(res);
  }

  class BsdpOpts {
    var msgType: Byte
    var version: Word
    var srvId: seq<Byte>
    var prio: Word
    var replyPort: Word
    var defaultImage: Option<Image>
    var selectedImage: Option<Image>
    var images: seq<Image>

    ghost function Value(): Opts
      reads this
    {
      Opts(msgType, version, srvId, prio, replyPort, defaultImage, selectedImage, images)
    }

    method ToOption() returns (res: seq<Byte>)
      ensures res == Encode(Value())
    {
      ghost var v := Value();
      res := [];
      if msgType > 0 {
        res := [1, 1] + [msgType];
      }
      assert res == Head1(v);
      res := res + ([2, 2] + [1, 1]);
      assert res == Head2(v);
      res := res + (if |srvId| > 0 then [3, 4] + srvId else []);
      assert res == Head3(v);
      res := res + (if prio > 0 then [4, 2] + [Hi(prio), Lo(prio)] else []);
      assert res == Head4(v);
      res := res + (if defaultImage.Some? then [7, 4] + Id(defaultImage.value) else []);
      assert res == Head7(v);
      res := res + (if selectedImage.Some? then [8, 4] + Id(selectedImage.value) else []);
      assert res == Head(v);
      if |images| > 0 {
        var list := EncodeList(images, 255 - |res|);
        res := res + list;
      } else {
        assert res + [] == res;
      }
    }

    /** False where the source would index past the end of a value. */
    method SetOne(code: Byte, val: seq<Byte>) returns (ok: bool)
      modifies this
      ensures ok <==> Set(old(Value()), code, val).Some?
      ensures ok ==> Some(Value()) == Set(old(Value()), code, val)
    {
      ok := true;
      match code
      case 1 =>
        if |val| < 1 {
          return false;
        }
        msgType := val[0];
      case 2 =>
        if |val| < 2 {
          return false;
        }
        version := WordAt(val[0], val[1]);
      case 3 =>
        srvId := val;
      case 4 =>
        if |val| < 2 {
          return false;
        }
        prio := WordAt(val[0], val[1]);
      case 5 =>
        if |val| < 2 {
          return false;
        }
        replyPort := WordAt(val[0], val[1]);
      case 7 =>
        if |val| < 4 {
          return false;
        }
        defaultImage := ToImage(val);
      case 8 =>
        if |val| < 4 {
          return false;
        }
        selectedImage := ToImage(val);
      case 9 =>
        var list := FillImages(val);
        if list.None? {
          return false;
        }
        images := list.value;
      case _ =>
    }

    method Parse(input: seq<Byte>) returns (ok: bool)
      modifies this
      ensures ok <==> Decode(old(Value()), input).Some?
      ensures ok ==> Some(Value()) == Decode(old(Value()), input)
    {
      var opts := input;
      while |opts| > 2
        invariant Decode(old(Value()), input) == Decode(Value(), opts)
        decreases |opts|
      {
        var code, codeLen := opts[0], opts[1];
        if |opts[2..]| < codeLen {
          return true;
        }
        ghost var whole, before := opts, Value();
        opts := opts[2..];
        var val := opts[..codeLen];
        opts := opts[codeLen..];
        assert val == whole[2..2 + codeLen] && opts == whole[2 + codeLen..];
        var fine := SetOne(code, val);
        if !fine {
          return false;
        }
      }
      return true;
    }
  }
}
