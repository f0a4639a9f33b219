/** The label map (`write_labels`): one text-format protobuf block per
    vocabulary entry, numbered from 1, joined by blank-line separators,
    written to `label.pbtxt` in the output folder. A reader of that text is
    given as the inverse the format admits. */
module Manifest {
  import opened Wrappers
  import opened Strings
  import opened Format
  import opened Paths
  import opened Labels

  const BlockHead := "item {\n  id: "
  const NameHead := "\n  name:'"
  const BlockTail := "'\n}\n"

  /** `"item {\n  id: %d\n  name:'%s'\n}\n" % (id, name)`. */
  function Block(name: string, id: nat): string
  {
    BlockHead + Decimal(id) + NameHead + name + BlockTail
  }

  /** `"\n".join(parts)`. */
  function JoinLines(parts: seq<string>): string
  {
    if parts == [] then ""
    else if |parts| == 1 then parts[0]
    else parts[0] + "\n" + JoinLines(parts[1..])
  }

  /** The entries the label map lists, in dict order: each name with its
      id shifted to start at 1. */
  function Entries(labels: LabelDict): (e: seq<(string, nat)>)
    ensures |e| == |labels|
  {
    seq(|labels|, i requires 0 <= i < |labels| => (labels[i].0, labels[i].1 + 1))
  }

  /** The block of each entry. */
  function Blocks(e: seq<(string, nat)>): (b: seq<string>)
    ensures |b| == |e|
    ensures forall i :: 0 <= i < |e| ==> b[i] == Block(e[i].0, e[i].1)
  {
    seq(|e|, i requires 0 <= i < |e| => Block(e[i].0, e[i].1))
  }

  function ManifestText(labels: LabelDict): string
  {
    JoinLines(Blocks(Entries(labels)))
  }

  /** `write_labels(folder, labels)`: the path of the label map and its
      text. The dict of the converter has distinct keys, so `items()` walks
      `labels` in order. */
  method WriteLabels(folder: Path, labels: LabelDict) returns (labelName: Path, text: string)
    ensures labelName == Join(folder, "label.pbtxt")
    ensures text == ManifestText(labels)
  {
    labelName := Join(folder, "label.pbtxt");
    var labelTxt: seq<string> := [];
    var i := 0;
    while i < |labels|
      invariant 0 <= i <= |labels|
      invariant labelTxt == Blocks(Entries(labels)[..i])
    {
      var (cls, id) := labels[i];
      labelTxt := labelTxt + [Block(cls, id + 1)];
      i := i + 1;
    }
    assert Entries(labels)[..i] == Entries(labels);
    text := JoinLines(labelTxt);
  }

  /** The name can be written between quotes without escaping. */
  predicate QuoteFree(name: string)
  {
    forall k :: 0 <= k < |name| ==> name[k] != '\''
  }

  /** Length of the run of decimal digits at the start of `s`. */
  function DigitRun(s: string): (n: nat)
    ensures n <= |s|
    ensures forall k :: 0 <= k < n ==> '0' <= s[k] <= '9'
  {
    if s != [] && '0' <= s[0] <= '9' then 1 + DigitRun(s[1..]) else 0
  }

  /** Index of the first `'` in `s`, or `|s|` when there is none. */
  function QuoteAt(s: string): (n: nat)
    ensures n <= |s|
    ensures forall k :: 0 <= k < n ==> s[k] != '\''
    ensures n < |s| ==> s[n] == '\''
  {
    if s == [] || s[0] == '\'' then 0 else 1 + QuoteAt(s[1..])
  }

  /** Reads one block from the front of `s`: its entry and the text after it. */
  function ParseBlock(s: string): (r: Option<((string, nat), string)>)
    ensures r.Some? ==> |r.value.1| < |s|
  {
    if !StartsWith(s, BlockHead) then None else ParseIdPart(s[|BlockHead|..])
  }

  function ParseIdPart(s: string): (r: Option<((string, nat), string)>)
    ensures r.Some? ==> |r.value.1| < |s|
  {
    var n := DigitRun(s);
    if n == 0 then None
    else match ParseDecimal(s[..n])
      case None => None
      case Some(id) => ParseNamePart(s[n..], id)
  }

  function ParseNamePart(s: string, id: nat): (r: Option<((string, nat), string)>)
    ensures r.Some? ==> |r.value.1| < |s|
  {
    if !StartsWith(s, NameHead) then None
    else
      var t := s[|NameHead|..];
      var q := QuoteAt(t);
      if !StartsWith(t[q..], BlockTail) then None
      else Some(((t[..q], id), t[q..][|BlockTail|..]))
  }

  /** Reads blocks separated by single newlines, up to the end of `s`. */
  function ParseBlocks(s: string): Option<seq<(string, nat)>>
    decreases |s|
  {
    match ParseBlock(s)
    case None => None
    case Some((e, rest)) =>
      if rest == [] then Some([e])
      else if rest[0] != '\n' then None
      else match ParseBlocks(rest[1..])
        case None => None
        case Some(es) => Some([e] + es)
  }

  /** Reads a label map back into its entries. */
  function ParseManifest(text: string): Option<seq<(string, nat)>>
  {
    if text == [] then Some([]) else ParseBlocks(text)
  }

  lemma {:induction false} DigitRunOfDigits(a: string, b: string)
    requires forall k :: 0 <= k < |a| ==> '0' <= a[k] <= '9'
    requires b != [] && !('0' <= b[0] <= '9')
    ensures DigitRun(a + b) == |a|
  {
    if a != [] {
      assert (a + b)[1..] == a[1..] + b;
      DigitRunOfDigits(a[1..], b);
    } else {
      assert a + b == b;
    }
  }

  lemma {:induction false} QuoteAtOfName(a: string, b: string)
    requires forall k :: 0 <= k < |a| ==> a[k] != '\''
    requires b != [] && b[0] == '\''
    ensures QuoteAt(a + b) == |a|
  {
    if a != [] {
      assert (a + b)[1..] == a[1..] + b;
      QuoteAtOfName(a[1..], b);
    } else {
      assert a + b == b;
    }
  }

  lemma NamePartRoundTrip(name: string, id: nat, rest: string)
    requires QuoteFree(name)
    ensures ParseNamePart(NameHead + (name + (BlockTail + rest)), id) == Some(((name, id), rest))
  {
    var s := NameHead + (name + (BlockTail + rest));
    assert s[..|NameHead|] == NameHead;
    var t := s[|NameHead|..];
    assert t == name + (BlockTail + rest);
    QuoteAtOfName(name, BlockTail + rest);
    assert t[..|name|] == name;
    assert t[|name|..] == BlockTail + rest;
    assert (BlockTail + rest)[..|BlockTail|] == BlockTail;
    assert (BlockTail + rest)[|BlockTail|..] == rest;
  }

  lemma IdPartRoundTrip(name: string, id: nat, rest: string)
    requires QuoteFree(name)
    ensures ParseIdPart(Decimal(id) + (NameHead + (name + (BlockTail + rest)))) == Some(((name, id), rest))
  {
    var d := Decimal(id);
    var after := NameHead + (name + (BlockTail + rest));
    DigitRunOfDigits(d, after);
    assert (d + after)[..|d|] == d;
    assert (d + after)[|d|..] == after;
    ParseDecimalOfDecimal(id);
    NamePartRoundTrip(name, id, rest);
  }

  /** A block written for a name without `'` reads back as that entry. */
  lemma BlockRoundTrip(name: string, id: nat, rest: string)
    requires QuoteFree(name)
    ensures ParseBlock(Block(name, id) + rest) == Some(((name, id), rest))
  {
    var tail := Decimal(id) + (NameHead + (name + (BlockTail + rest)));
    assert Block(name, id) + rest == BlockHead + tail;
    assert (BlockHead + tail)[..|BlockHead|] == BlockHead;
    assert (BlockHead + tail)[|BlockHead|..] == tail;
    IdPartRoundTrip(name, id, rest);
  }

  lemma ParseBlocksStep(s: string, x: (string, nat), rest: string, es: seq<(string, nat)>)
    requires ParseBlock(s) == Some((x, rest))
    requires rest != [] && rest[0] == '\n' && ParseBlocks(rest[1..]) == Some(es)
    ensures ParseBlocks(s) == Some([x] + es)
  {
  }

  /** Blocks joined by newlines read back as their entries. */
  lemma {:induction false} BlocksRoundTrip(e: seq<(string, nat)>)
    requires e != []
    requires forall i :: 0 <= i < |e| ==> QuoteFree(e[i].0)
    ensures ParseBlocks(JoinLines(Blocks(e))) == Some(e)
  {
    if |e| == 1 {
      SingleBlockRoundTrip(e);
    } else {
      BlocksRoundTrip(e[1..]);
      BlocksRoundTripStep(e);
    }
  }

  lemma BlocksRoundTripStep(e: seq<(string, nat)>)
    requires |e| >= 2 && QuoteFree(e[0].0)
    requires ParseBlocks(JoinLines(Blocks(e[1..]))) == Some(e[1..])
    ensures ParseBlocks(JoinLines(Blocks(e))) == Some(e)
  {
    JoinLinesCons(e);
    HeadTail(e);
    ConsBlockRoundTrip(JoinLines(Blocks(e)), e[0], JoinLines(Blocks(e[1..])), e[1..], e);
  }

  lemma HeadTail<T>(e: seq<T>)
    requires e != []
    ensures e == [e[0]] + e[1..]
  {
  }

  lemma ConsBlockRoundTrip(text: string, x: (string, nat), tail: string, es: seq<(string, nat)>, e: seq<(string, nat)>)
    requires QuoteFree(x.0) && ParseBlocks(tail) == Some(es)
    requires text == Block(x.0, x.1) + ("\n" + tail) && e == [x] + es
    ensures ParseBlocks(text) == Some(e)
  {
    var rest := "\n" + tail;
    assert rest[1..] == tail;
    BlockRoundTrip(x.0, x.1, rest);
    ParseBlocksStep(Block(x.0, x.1) + rest, x, rest, es);
  }

  lemma SingleBlockRoundTrip(e: seq<(string, nat)>)
    requires |e| == 1
    requires QuoteFree(e[0].0)
    ensures ParseBlocks(JoinLines(Blocks(e))) == Some(e)
  {
    BlockRoundTrip(e[0].0, e[0].1, "");
    assert JoinLines(Blocks(e)) == Block(e[0].0, e[0].1) + "";
    assert [e[0]] == e;
  }

  lemma JoinLinesCons(e: seq<(string, nat)>)
    requires |e| >= 2
    ensures JoinLines(Blocks(e)) == Block(e[0].0, e[0].1) + ("\n" + JoinLines(Blocks(e[1..])))
  {
    assert Blocks(e)[1..] == Blocks(e[1..]);
  }

  /** The label map reads back as the dict's entries, ids shifted by one,
      whenever no class name holds a `'` (the format has no escaping). */
  lemma ManifestRoundTrip(labels: LabelDict)
    requires forall i :: 0 <= i < |labels| ==> QuoteFree(labels[i].0)
    ensures ParseManifest(ManifestText(labels)) == Some(Entries(labels))
  {
    if labels != [] {
      BlocksRoundTrip(Entries(labels));
    }
  }

  /** For the converter's vocabulary the label map lists every class name
      once, in sorted order, with ids 1, 2, 3, ... */
  lemma VocabularyManifest(labels: LabelDict, names: set<string>)
    requires IsVocabulary(labels, names)
    requires forall i :: 0 <= i < |labels| ==> QuoteFree(labels[i].0)
    ensures ParseManifest(ManifestText(labels)).Some?
    ensures var e := ParseManifest(ManifestText(labels)).value;
      && |e| == |names|
      && (forall i :: 0 <= i < |e| ==> e[i].1 == i + 1 && e[i].0 in names)
      && (forall i, j :: 0 <= i < j < |e| ==> Less(e[i].0, e[j].0))
  {
    ManifestRoundTrip(labels);
    VocabularyIds(labels, names);
  }

  /** For any class names, quotes included: the label map of the
      vocabulary built from the sorted listing `r` of `names` is one block
      per listed name, in sorted order, numbered 1, 2, 3, ... */
  lemma VocabularyManifestText(labels: LabelDict, names: set<string>, r: seq<string>)
    requires StrictlySorted(r) && Elements(r) == names && labels == Enumerate(r)
    ensures |r| == |names|
    ensures ManifestText(labels) == JoinLines(seq(|r|, i requires 0 <= i < |r| => Block(r[i], i + 1)))
  {
    VocabularyIds(labels, names);
    assert Blocks(Entries(labels)) == seq(|r|, i requires 0 <= i < |r| => Block(r[i], i + 1));
  }

  /** A one-class vocabulary gives a single block with id 1. */
  lemma SingleClassManifest(c: string)
    ensures ManifestText([(c, 0)]) == "item {\n  id: 1\n  name:'" + c + "'\n}\n"
  {
    assert Entries([(c, 0)]) == [(c, 1)];
    assert Decimal(1) == "1";
  }
}
