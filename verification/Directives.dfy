/** What the directives put into the image, and where. */
module Directives {
  import opened Common
  import opened Words
  import Asm = Assembler
  import Calling
  import Linkage

  /** Alignment emits at least one zero and at most a whole unit, and ends at a multiple of the unit. */
  lemma AlignEmits(unit: nat, at: nat, t: Asm.Table)
    requires unit > 0
    ensures var b := Asm.Encode(Asm.Align(unit), at, t);
      1 <= |b| <= unit && (at + |b|) % unit == 0 && forall i :: 0 <= i < |b| ==> b[i] == 0
  {
    var n := unit - at % unit;
    DivideExact(unit, at / unit + 1, 0);
    assert at + n == unit * (at / unit) + unit == unit * (at / unit + 1) by { Distributes(unit, at / unit); }
  }

  lemma Distributes(x: int, y: int)
    ensures x * (y + 1) == x * y + x
  {
  }

  lemma ZeroEmits(count: nat, at: nat, t: Asm.Table)
    ensures var b := Asm.Encode(Asm.Zero(count), at, t); |b| == count && forall i :: 0 <= i < |b| ==> b[i] == 0
  {
  }

  /** A directive's bytes in the image of a program that assembles, from its offset to the next one's. */
  predicate Occupies(p: seq<Asm.Statement>, image: seq<Byte>, k: nat, b: seq<Byte>)
    requires k < |p|
  {
    var at, end := Asm.Offset(p[..k]), Asm.Offset(p[..k + 1]);
    end == at + |b| && end <= |image| && image[at..end] == b
  }

  lemma Placed(p: seq<Asm.Statement>, image: seq<Byte>, k: nat)
    requires Asm.TwoPass(p) == Some(image) && k < |p|
    ensures Occupies(p, image, k, Asm.Encode(p[k], Asm.Offset(p[..k]), Asm.Labels(p)))
  {
    hide Asm.Encode, Asm.Labels, Asm.Image, Asm.Clean, Asm.Resolved, Asm.Size;
    assert p[..k + 1][..k] == p[..k];
    Linkage.StatementAt(p, k, Asm.Labels(p));
  }

  /** `!align`: what follows is at the first multiple of the unit above, a whole unit on when it was
      there already; all in between is zero. */
  lemma AlignPlaced(p: seq<Asm.Statement>, image: seq<Byte>, k: nat)
    requires Asm.TwoPass(p) == Some(image) && k < |p| && p[k].Align?
    ensures var at, end := Asm.Offset(p[..k]), Asm.Offset(p[..k + 1]);
      && p[k].unit > 0 && at < end <= at + p[k].unit && end % p[k].unit == 0 && end <= |image|
      && forall i :: at <= i < end ==> image[i] == 0
  {
    hide Asm.Encode, Asm.Labels, Asm.Image, Asm.Offset;
    assert Asm.Encodable(p[k]);
    Placed(p, image, k);
    AlignEmits(p[k].unit, Asm.Offset(p[..k]), Asm.Labels(p));
    SliceAll(image, Asm.Offset(p[..k]), Asm.Offset(p[..k + 1]));
  }

  lemma SliceAll(s: seq<Byte>, at: nat, end: nat)
    requires at <= end <= |s|
    ensures forall i :: at <= i < end ==> s[i] == s[at..end][i - at]
  {
  }

  /** `!zero`: exactly as many zeros as asked for. */
  lemma ZeroPlaced(p: seq<Asm.Statement>, image: seq<Byte>, k: nat)
    requires Asm.TwoPass(p) == Some(image) && k < |p| && p[k].Zero?
    ensures var at, end := Asm.Offset(p[..k]), Asm.Offset(p[..k + 1]);
      end == at + p[k].count && end <= |image| && forall i :: at <= i < end ==> image[i] == 0
  {
    hide Asm.Encode, Asm.Labels, Asm.Image, Asm.Offset, Asm.Clean, Asm.Resolved;
    Placed(p, image, k);
    ZeroEmits(p[k].count, Asm.Offset(p[..k]), Asm.Labels(p));
    SliceAll(image, Asm.Offset(p[..k]), Asm.Offset(p[..k + 1]));
  }

  /** Where the items of a `!data` start: four bytes for a word, its length for a text. */
  function Place(at: nat, items: seq<Asm.Datum>, i: nat): nat
    requires i <= |items|
  {
    if i == 0 then at
    else Place(at, items, i - 1) + match items[i - 1] { case Word(_) => 4 case Text(b) => |b| }
  }

  lemma {:induction false} PlaceSize(at: nat, items: seq<Asm.Datum>, i: nat)
    requires i <= |items|
    ensures Place(at, items, i) == at + Asm.DataSize(items[..i])
  {
    if i != 0 {
      PlaceSize(at, items, i - 1);
      assert items[..i][..i - 1] == items[..i - 1];
    }
  }

  lemma {:induction false} DataPrefix(items: seq<Asm.Datum>, i: nat)
    requires i <= |items|
    ensures Asm.DataSize(items[..i]) <= Asm.DataSize(items)
    ensures Asm.EncodeData(items)[..Asm.DataSize(items[..i])] == Asm.EncodeData(items[..i])
  {
    hide Packed;
    if i == |items| {
      assert items[..i] == items;
    } else {
      var q := items[..|items| - 1];
      DataPrefix(q, i);
      assert q[..i] == items[..i];
      var n := Asm.DataSize(items[..i]);
      assert Asm.EncodeData(items)[..n] == Asm.EncodeData(q)[..n];
    }
  }

  /** The bytes of one item. */
  function ItemBytes(d: Asm.Datum): seq<Byte> {
    match d
    case Word(v) => Packed(v)
    case Text(b) => b
  }

  lemma ItemEmitted(items: seq<Asm.Datum>, i: nat)
    requires i < |items|
    ensures var from, to := Asm.DataSize(items[..i]), Asm.DataSize(items[..i + 1]);
      from <= to <= |Asm.EncodeData(items)| && Asm.EncodeData(items)[from..to] == ItemBytes(items[i])
  {
    hide Packed;
    var from, to := Asm.DataSize(items[..i]), Asm.DataSize(items[..i + 1]);
    DataPrefix(items, i + 1);
    assert items[..i + 1][..i] == items[..i];
    var upto := Asm.EncodeData(items[..i + 1]);
    assert upto == Asm.EncodeData(items[..i]) + ItemBytes(items[i]);
    assert Asm.EncodeData(items)[from..to] == Asm.EncodeData(items)[..to][from..];
  }

  /** The bytes of one item at its place in the image. */
  lemma ItemPlaced(p: seq<Asm.Statement>, image: seq<Byte>, k: nat, i: nat)
    requires Asm.TwoPass(p) == Some(image) && k < |p| && p[k].Data? && i < |p[k].items|
    ensures var items, from := p[k].items, Asm.Offset(p[..k]);
      var at, end := Place(from, items, i), Place(from, items, i + 1);
      at <= end <= |image| && image[at..end] == ItemBytes(items[i])
    ensures Asm.Offset(p[..k + 1]) == Place(Asm.Offset(p[..k]), p[k].items, |p[k].items|)
  {
    hide Asm.Labels, Asm.Image, Asm.Offset, Asm.Resolved, Asm.Clean, Asm.EncodeData, Asm.DataSize, Packed, Place,
         ItemBytes;
    var items, from := p[k].items, Asm.Offset(p[..k]);
    Placed(p, image, k);
    PlaceSize(from, items, i);
    PlaceSize(from, items, i + 1);
    PlaceSize(from, items, |items|);
    assert items[..|items|] == items;
    ItemEmitted(items, i);
    var lo, hi := Asm.DataSize(items[..i]), Asm.DataSize(items[..i + 1]);
    Linkage.SlicePart(image, from, Asm.Offset(p[..k + 1]) - from, lo, hi - lo);
  }

  /** `!data`: the items one after another and nothing else; a word stands there most significant byte
      first, a text as it is. */
  lemma DataPlaced(p: seq<Asm.Statement>, image: seq<Byte>, k: nat, i: nat)
    requires Asm.TwoPass(p) == Some(image) && k < |p| && p[k].Data? && i < |p[k].items|
    ensures var items := p[k].items;
      var x, at := items[i], Place(Asm.Offset(p[..k]), items, i);
      && Asm.Offset(p[..k + 1]) == Place(Asm.Offset(p[..k]), items, |items|)
      && match x {
           case Word(v) =>
             at + 4 <= |image| && Unpacked(image[at], image[at + 1], image[at + 2], image[at + 3]) == v
           case Text(b) => at + |b| <= |image| && image[at..at + |b|] == b
         }
  {
    hide Asm.Labels, Asm.Image, Asm.Offset, Asm.Resolved, Packed;
    var items := p[k].items;
    assert Asm.DatumFits(items[i]) by {
      assert Asm.Encodable(p[k]) && items[i] in items;
    }
    ItemPlaced(p, image, k, i);
    if items[i].Word? {
      UnpackPacked(items[i].v);
      FourBytes(image, Place(Asm.Offset(p[..k]), items, i));
    }
  }

  lemma FourBytes(s: seq<Byte>, at: nat)
    requires at + 4 <= |s|
    ensures var b := s[at..at + 4]; b[0] == s[at] && b[1] == s[at + 1] && b[2] == s[at + 2] && b[3] == s[at + 3]
  {
  }

  /** A label behind an alignment is at a multiple of the unit, and never where the alignment began. */
  lemma LabelAligned(p: seq<Asm.Statement>, image: seq<Byte>, k: nat, l: string)
    requires Asm.TwoPass(p) == Some(image) && k + 1 < |p| && p[k].Align? && p[k + 1] == Asm.Label(l)
    ensures p[k].unit > 0 && l in Asm.Labels(p) && Asm.Labels(p)[l] % p[k].unit == 0
    ensures Asm.Offset(p[..k]) < Asm.Labels(p)[l] <= Asm.Offset(p[..k]) + p[k].unit
  {
    hide Asm.Labels, Asm.Image, Asm.Offset, Asm.Resolved;
    AlignPlaced(p, image, k);
    Calling.LabelPlaced(p, k + 1, l);
  }

  /** At an aligned offset a whole unit is emitted. */
  lemma AlignedAgain(unit: nat, l: string)
    requires unit > 0
    ensures Asm.Labels([Asm.Align(unit), Asm.Label(l)]) == map[l := unit]
  {
    var p := [Asm.Align(unit), Asm.Label(l)];
    var q := p[..1];
    assert q == [Asm.Align(unit)] && q[..0] == [] && p[1] == Asm.Label(l);
    assert 0 % unit == 0;
    assert Asm.Offset([]) == 0 && Asm.Labels([]) == map[];
    assert Asm.Offset(q) == Asm.Offset(q[..0]) + Asm.Size(q[0], Asm.Offset(q[..0]));
    assert Asm.Labels(q) == Asm.Labels(q[..0]);
    assert Asm.Labels(p) == Asm.Labels(q)[l := Asm.Offset(q)];
  }
}
