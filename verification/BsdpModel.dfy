/**
 The vendor option of Apple's boot service discovery protocol (midlayer/abp.go): a sequence of
 code, length and value, the last of which may be a list of boot images.  Bytes are numbers,
 and the places where the source computes in a byte are written out.
 */
module BsdpModel {
  import opened Wrappers

  type Byte = n: nat | n < 256
  type Word = n: nat | n < 0x1_0000

  datatype Image = Image(install: bool, osType: Byte, index: Word, name: seq<Byte>)

  /** What a round trip is about; the decoder sets all low bits of the type. */
  datatype View = View(install: bool, index: Word, name: seq<Byte>)

  function ViewOf(i: Image): View {
    View(i.install, i.index, i.name)
  }

  function Views(images: seq<Image>): seq<View> {
    if images == [] then [] else [ViewOf(images[0])] + Views(images[1..])
  }

  datatype Opts = Opts(
    msgType: Byte, version: Word, srvId: seq<Byte>, prio: Word, replyPort: Word,
    defaultImage: Option<Image>, selectedImage: Option<Image>, images: seq<Image>)

  const BLANK := Opts(0, 0, [], 0, 0, None, None, [])

  // ----- encoding -----

  function Hi(w: Word): Byte { w / 256 }

  function Lo(w: Word): Byte { w % 256 }

  /** Type, with the top bit for installers; the sum is a byte. */
  function Id(i: Image): seq<Byte> {
    [(i.osType as int + if i.install then 128 else 0) % 256, 0, Hi(i.index), Lo(i.index)]
  }

  function ImageOption(i: Image): seq<Byte> {
    if i.name == [] then Id(i)
    else if |i.name| < 255 then Id(i) + [|i.name|] + i.name
    else Id(i) + [255] + i.name[..255]
  }

  function Options(images: seq<Image>): seq<seq<Byte>> {
    seq(|images|, i requires 0 <= i < |images| => ImageOption(images[i]))
  }

  function Concat(parts: seq<seq<Byte>>): seq<Byte> {
    if parts == [] then [] else parts[0] + Concat(parts[1..])
  }

  function Body(images: seq<Image>): seq<Byte> {
    Concat(Options(images))
  }

  /** How many parts are taken while they fit, `used` bytes being taken already. */
  function Fitting(parts: seq<seq<Byte>>, used: nat, budget: int): (k: nat)
    ensures k <= |parts|
  {
    if parts == [] || |parts[0]| + used > budget then 0
    else 1 + Fitting(parts[1..], used + |parts[0]|, budget)
  }

  function Prefix(images: seq<Image>, budget: int): seq<Image> {
    images[..Fitting(Options(images), 2, budget)]
  }

  function ListOption(images: seq<Image>, budget: int): seq<Byte> {
    var body := Body(Prefix(images, budget));
    [9, |body| % 256] + body
  }

  function IdField(code: Byte, i: Option<Image>): seq<Byte> {
    if i.None? then [] else [code, 4] + Id(i.value)
  }

  // What precedes the image list, field by field.

  function Head1(o: Opts): seq<Byte> {
    if o.msgType > 0 then [1, 1] + [o.msgType] else []
  }

  function Head2(o: Opts): seq<Byte> {
    Head1(o) + ([2, 2] + [1, 1])
  }

  function Head3(o: Opts): seq<Byte> {
    Head2(o) + if |o.srvId| > 0 then [3, 4] + o.srvId else []
  }

  function Head4(o: Opts): seq<Byte> {
    Head3(o) + if o.prio > 0 then [4, 2] + [Hi(o.prio), Lo(o.prio)] else []
  }

  function Head7(o: Opts): seq<Byte> {
    Head4(o) + IdField(7, o.defaultImage)
  }

  function Head(o: Opts): seq<Byte> {
    Head7(o) + IdField(8, o.selectedImage)
  }

  function Encode(o: Opts): seq<Byte> {
    Head(o) + if o.images == [] then [] else ListOption(o.images, 255 - |Head(o)|)
  }

  // ----- decoding; None where the source would index past its slice -----

  function WordAt(hi: Byte, lo: Byte): Word {
    hi * 256 + lo
  }

  function ToWord(buf: seq<Byte>): Option<Word> {
    if |buf| < 2 then None else Some(WordAt(buf[0], buf[1]))
  }

  function ToImage(buf: seq<Byte>): Option<Image> {
    if |buf| < 4 then None
    else Some(Image(buf[0] >= 128, if buf[0] >= 128 then 255 else 127, WordAt(buf[2], buf[3]),
                    if |buf| > 5 then buf[5..] else []))
  }

  /** The length is computed in a byte. */
  function EntryLength(buf: seq<Byte>): Byte
    requires |buf| > 4
  {
    (buf[4] as int + 5) % 256
  }

  function Fill(buf: seq<Byte>): Option<seq<Image>> {
    if |buf| <= 4 then Some([])
    else
      var n := EntryLength(buf);
      if n > |buf| || n < 4 then None
      else
        var rest := Fill(buf[n..]);
        if rest.None? then None else Some([ToImage(buf[..n]).value] + rest.value)
  }

  /** One field; unknown codes are skipped. */
  function Set(o: Opts, code: Byte, val: seq<Byte>): Option<Opts> {
    match code
    case 1 => if |val| < 1 then None else Some(o.(msgType := val[0]))
    case 2 => if ToWord(val).None? then None else Some(o.(version := ToWord(val).value))
    case 3 => Some(o.(srvId := val))
    case 4 => if ToWord(val).None? then None else Some(o.(prio := ToWord(val).value))
    case 5 => if ToWord(val).None? then None else Some(o.(replyPort := ToWord(val).value))
    case 7 => if ToImage(val).None? then None else Some(o.(defaultImage := ToImage(val)))
    case 8 => if ToImage(val).None? then None else Some(o.(selectedImage := ToImage(val)))
    case 9 => if Fill(val).None? then None else Some(o.(images := Fill(val).value))
    case _ => Some(o)
  }

  function Decode(o: Opts, opts: seq<Byte>): Option<Opts>
    decreases |opts|
  {
    if |opts| <= 2 || |opts| - 2 < opts[1] then Some(o)
    else
      var o' := Set(o, opts[0], opts[2..2 + opts[1]]);
      if o'.None? then None else Decode(o'.value, opts[2 + opts[1]..])
  }

  // ----- the prefix that fits -----

  lemma {:induction false} ConcatAppend(a: seq<seq<Byte>>, x: seq<Byte>)
    ensures Concat(a + [x]) == Concat(a) + x
  {
    if a == [] {
      assert ([] + [x])[1..] == [];
    } else {
      ConcatAppend(a[1..], x);
      assert (a + [x])[1..] == a[1..] + [x];
    }
  }

  /** Exactly the longest prefix that fits: a prefix is within the budget just when it is no longer. */
  lemma {:induction false} LongestFits(parts: seq<seq<Byte>>, used: nat, budget: int, j: nat)
    requires used <= budget && j <= |parts|
    ensures used + |Concat(parts[..j])| <= budget <==> j <= Fitting(parts, used, budget)
    decreases |parts|
  {
    if j > 0 {
      assert parts[..j][1..] == parts[1..][..j - 1];
      if |parts[0]| + used <= budget {
        LongestFits(parts[1..], used + |parts[0]|, budget, j - 1);
      }
    }
  }

  lemma BodyFirst(images: seq<Image>)
    requires images != []
    ensures Body(images) == ImageOption(images[0]) + Body(images[1..])
  {
    assert Options(images)[1..] == Options(images[1..]);
  }

  // ----- one image -----

  /** The installer flag comes back just when the type leaves room for it. */
  lemma IdRoundTrip(i: Image)
    ensures var d := ToImage(Id(i));
            && d.Some? && d.value.index == i.index && d.value.name == []
            && (d.value.install == i.install <==> i.osType < 128)
  {
  }

  lemma ImageRoundTrip(i: Image, rest: seq<Byte>)
    requires i.osType < 128 && 0 < |i.name| <= 250
    ensures var buf := ImageOption(i) + rest;
            && |buf| > 4 && EntryLength(buf) == |ImageOption(i)| == |i.name| + 5
            && buf[..EntryLength(buf)] == ImageOption(i) && buf[EntryLength(buf)..] == rest
    ensures ToImage(ImageOption(i)).Some? && ViewOf(ToImage(ImageOption(i)).value) == ViewOf(i)
  {
    var opt := ImageOption(i);
    assert opt[..4] == Id(i) && opt[4] == |i.name| && opt[5..] == i.name;
    assert (opt + rest)[4] == opt[4];
    IdRoundTrip(i);
  }

  // ----- the image list -----

  /**
   An image without a name is written without a length, and is read back only if the byte
   taken for its length is 255: the first byte of an installer of type 127 right behind it.
   */
  predicate NamesAlign(images: seq<Image>) {
    forall i :: 0 <= i < |images| ==> AlignedAt(images, i)
  }

  predicate AlignedAt(images: seq<Image>, i: nat)
    requires i < |images|
  {
    images[i].name == [] ==> i + 1 < |images| && images[i + 1].install && images[i + 1].osType == 127
  }

  predicate Small(images: seq<Image>) {
    forall i :: 0 <= i < |images| ==> images[i].osType < 128 && |images[i].name| <= 250
  }

  /** Room that the decoder needs to produce a list of names. */
  function Need(views: seq<View>): nat {
    if views == [] then 0 else (if views[0].name == [] then 4 else 5 + |views[0].name|) + Need(views[1..])
  }

  lemma {:induction false} NeedIsLength(images: seq<Image>)
    requires Small(images)
    ensures Need(Views(images)) == |Body(images)|
  {
    if images != [] {
      BodyFirst(images);
      NeedIsLength(images[1..]);
      assert Views(images)[1..] == Views(images[1..]);
    }
  }

  /** Nothing is read twice: what a buffer decodes to needs no more room than it has. */
  lemma {:induction false} FillNeeds(buf: seq<Byte>)
    ensures Fill(buf).Some? ==> Need(Views(Fill(buf).value)) <= |buf|
    decreases |buf|
  {
    if |buf| > 4 {
      var n := EntryLength(buf);
      if 4 <= n <= |buf| {
        FillNeeds(buf[n..]);
        if Fill(buf[n..]).Some? {
          var es := Fill(buf).value;
          assert Views(es)[1..] == Views(es[1..]);
          assert es[1..] == Fill(buf[n..]).value;
        }
      }
    }
  }

  lemma FillStep(buf: seq<Byte>, n: nat)
    requires |buf| > 4 && n == EntryLength(buf) && 4 <= n <= |buf|
    ensures Fill(buf).Some? <==> Fill(buf[n..]).Some?
    ensures Fill(buf).Some? ==>
              Views(Fill(buf).value) == [ViewOf(ToImage(buf[..n]).value)] + Views(Fill(buf[n..]).value)
  {
    if Fill(buf).Some? {
      assert Fill(buf).value[1..] == Fill(buf[n..]).value;
    }
  }

  lemma AlignTail(images: seq<Image>)
    requires images != []
    ensures NamesAlign(images) <==> NamesAlign(images[1..]) && AlignedAt(images, 0)
  {
    var tail := images[1..];
    assert forall i :: 0 <= i < |tail| ==> (AlignedAt(tail, i) <==> AlignedAt(images, i + 1));
    if NamesAlign(tail) && AlignedAt(images, 0) {
      forall i | 0 <= i < |images| ensures AlignedAt(images, i) {
        assert i > 0 ==> AlignedAt(tail, i - 1);
      }
    }
  }

  predicate Recovers(images: seq<Image>) {
    Fill(Body(images)).Some? && Views(Fill(Body(images)).value) == Views(images)
  }

  /** With its first entry read correctly, a list is recovered just when the rest is. */
  lemma RecoversStep(images: seq<Image>, n: nat)
    requires images != [] && |Body(images)| > 4
    requires n == EntryLength(Body(images)) && 4 <= n <= |Body(images)|
    requires Body(images)[n..] == Body(images[1..])
    requires ViewOf(ToImage(Body(images)[..n]).value) == ViewOf(images[0])
    ensures Recovers(images) <==> Recovers(images[1..])
  {
    FillStep(Body(images), n);
    var head, tail := [ViewOf(images[0])], Views(images[1..]);
    assert Views(images) == head + tail;
    if Fill(Body(images)).Some? {
      var got := Views(Fill(Body(images[1..])).value);
      assert (head + got)[1..] == got && (head + tail)[1..] == tail;
    }
  }

  lemma NamedFirst(images: seq<Image>)
    requires images != [] && images[0].name != [] && Small(images)
    ensures Recovers(images) <==> Recovers(images[1..])
  {
    BodyFirst(images);
    ImageRoundTrip(images[0], Body(images[1..]));
    RecoversStep(images, EntryLength(Body(images)));
  }

  lemma NamelessLast(i: Image)
    requires i.name == []
    ensures !Recovers([i])
  {
    BodyFirst([i]);
    assert [i][1..] == [] && Body([]) == [];
    assert Body([i]) == Id(i);
    assert Views([i]) == [ViewOf(i)];
  }

  lemma FirstByte(images: seq<Image>)
    requires images != [] && Small(images)
    ensures |Body(images)| >= 4
    ensures Body(images)[0] == images[0].osType as int + if images[0].install then 128 else 0
  {
    BodyFirst(images);
    assert ImageOption(images[0])[..4] == Id(images[0]);
  }

  lemma NamelessBytes(images: seq<Image>)
    requires |images| > 1 && images[0].name == [] && Small(images)
    ensures var buf := Body(images);
            && |buf| > 4 && buf[..4] == Id(images[0]) && buf[4..] == Body(images[1..])
            && buf[4] == images[1].osType as int + if images[1].install then 128 else 0
  {
    BodyFirst(images);
    FirstByte(images[1..]);
    assert Body(images)[4] == Body(images[1..])[0];
  }

  lemma NamelessAligned(images: seq<Image>)
    requires |images| > 1 && images[0].name == [] && Small(images)
    requires images[1].install && images[1].osType == 127
    ensures Recovers(images) <==> Recovers(images[1..])
  {
    NamelessBytes(images);
    IdRoundTrip(images[0]);
    RecoversStep(images, 4);
  }

  /** Any other byte taken for the length gives a name, or costs a byte that the rest needs. */
  lemma Misread(buf: seq<Byte>, views: seq<View>)
    requires |buf| > 4 && EntryLength(buf) != 4
    requires views != [] && views[0].name == [] && Need(views) == |buf|
    ensures !(Fill(buf).Some? && Views(Fill(buf).value) == views)
  {
    var n := EntryLength(buf);
    if 4 <= n <= |buf| {
      FillStep(buf, n);
      FillNeeds(buf[n..]);
      if Fill(buf).Some? {
        var got := Views(Fill(buf).value);
        assert got[1..] == Views(Fill(buf[n..]).value);
        assert got[0].name == [] ==> Need(got) < |buf|;
      }
    }
  }

  lemma NamelessMisaligned(images: seq<Image>)
    requires |images| > 1 && images[0].name == [] && Small(images)
    requires !(images[1].install && images[1].osType == 127)
    ensures !Recovers(images)
  {
    NamelessBytes(images);
    NeedIsLength(images);
    assert Views(images)[0] == ViewOf(images[0]);
    Misread(Body(images), Views(images));
  }

  /** A list of images is read back just when its nameless images align. */
  lemma {:induction false} ListRoundTrip(images: seq<Image>)
    requires Small(images)
    ensures Recovers(images) <==> NamesAlign(images)
    decreases |images|
  {
    if images != [] {
      ListRoundTrip(images[1..]);
      AlignTail(images);
      if images[0].name != [] {
        NamedFirst(images);
      } else if |images| == 1 {
        assert images == [images[0]];
        NamelessLast(images[0]);
      } else if AlignedAt(images, 0) {
        NamelessAligned(images);
      } else {
        NamelessMisaligned(images);
      }
    }
  }
}
