/** The output writer of fastesri.py: the features of one Esri feature
    service written as a CSV table, as newline-delimited GeoJSON, or as one
    GeoJSON FeatureCollection streamed feature by feature.

    Features are an opaque type `F`; `json.dumps` is a function `F -> string`
    and the CSV rendering of the property table a function of the feature
    list. */
module FastEsri {
  import opened Util

  /** The output stream `args.outfile`: everything written so far. */
  class OutFile {
    var text: string

    constructor()
      ensures text == ""
    {
      text := "";
    }

    /** `outfile.write(s)`. */
    method Write(s: string)
      modifies this
      ensures text == old(text) + s
    {
      text := text + s;
    }
  }

  /** The output flags (`--csv`, `--jsonlines`). */
  datatype Args = Args(csv: bool, jsonlines: bool)

  /** The first line of a FeatureCollection, without its newline. */
  const Opening: string := "{\"type\":\"FeatureCollection\",\"features\":["

  /** What line 74 writes. */
  const Header: string := Opening + "\n"

  /** The text between two features. */
  const Separator: string := ",\n"

  /** What lines 83-84 write. */
  const Footer: string := "\n" + "]}"

  /** The FeatureCollection text for the dumped features `ds`. */
  function FeatureCollection(ds: seq<string>): string
  {
    Header + Join(ds, Separator) + Footer
  }

  /** The newline-delimited text for the dumped features `ds`. */
  function JsonLines(ds: seq<string>): string
  {
    Terminated(ds, "\n")
  }

  /** What `main` writes: the modes are tried in the order csv, jsonlines,
      FeatureCollection, and only the first that is set writes. */
  function Output<F>(args: Args, features: seq<F>, dumps: F -> string, csv: seq<F> -> string): string
  {
    if args.csv then csv(features)
    else if args.jsonlines then JsonLines(Map(dumps, features))
    else FeatureCollection(Map(dumps, features))
  }

  /** Every feature but the last is followed by exactly one separator, and
      the last by the footer alone. */
  lemma FeatureCollectionShape(ds: seq<string>)
    requires |ds| > 0
    ensures FeatureCollection(ds) == Header + Terminated(ds[..|ds| - 1], Separator) + ds[|ds| - 1] + Footer
    ensures |FeatureCollection(ds)| == |Header| + SumLengths(ds) + 2 * (|ds| - 1) + |Footer|
  {
    var init, last := ds[..|ds| - 1], ds[|ds| - 1];
    JoinAsTerminated(ds, Separator);
    var body := Terminated(init, Separator);
    assert FeatureCollection(ds) == Header + body + last + Footer;
    TerminatedLength(init, Separator);
    assert |body| == SumLengths(init) + 2 * |init|;
    assert init + [last] == ds;
    SumLengthsSnoc(init, last);
  }

  lemma {:induction false} SumLengthsSnoc(xs: seq<string>, x: string)
    ensures SumLengths(xs + [x]) == SumLengths(xs) + |x|
  {
    assert (xs + [x])[..|xs|] == xs;
  }

  /** The lines of a FeatureCollection, when no dump holds a newline (as
      `json.dumps` without `indent` never does): the opening, each feature in
      order with a trailing comma except the last, and the closing `]}`. */
  function CollectionLines(ds: seq<string>): seq<string>
  {
    if ds == [] then [Opening, "", "]}"]
    else [Opening] + Map(Suffixed(","), ds[..|ds| - 1]) + [ds[|ds| - 1]] + ["]}"]
  }

  /** A join with separator `a + [c]` between a head line and a tail line
      splits at `c` into the head, each element but the last followed by `a`,
      the last, and the tail. */
  lemma SplitFramed(head: string, xs: seq<string>, a: string, tail: string, c: char)
    requires |xs| > 0 && c !in head && c !in a && c !in tail
    requires forall i :: 0 <= i < |xs| ==> c !in xs[i]
    ensures SplitOn(head + [c] + Join(xs, a + [c]) + [c] + tail, c)
         == [head] + Map(Suffixed(a), xs[..|xs| - 1]) + [xs[|xs| - 1]] + [tail]
  {
    var body := Map(Suffixed(a), xs[..|xs| - 1]) + [xs[|xs| - 1]];
    var lines := [head] + body + [tail];
    JoinSplitSeparator(xs, a, [c]);
    JoinConcat([head], body, [c]);
    JoinConcat([head] + body, [tail], [c]);
    assert Join(lines, [c]) == head + [c] + Join(xs, a + [c]) + [c] + tail;
    forall i | 0 <= i < |lines| ensures c !in lines[i] {
      if 1 <= i < |xs| {
        assert lines[i] == xs[i - 1] + a;
      } else if i == |xs| {
        assert lines[i] == xs[|xs| - 1];
      }
    }
    SplitJoinRoundTrip(lines, c);
  }

  lemma FeatureCollectionLines(ds: seq<string>)
    requires forall i :: 0 <= i < |ds| ==> '\n' !in ds[i]
    ensures SplitOn(FeatureCollection(ds), '\n') == CollectionLines(ds)
  {
    if ds == [] {
      assert FeatureCollection(ds) == Opening + ['\n'] + ("" + ['\n'] + "]}");
      SplitOnPiece(Opening, "" + ['\n'] + "]}", '\n');
      SplitOnPiece("", "]}", '\n');
      SplitOnPlain("]}", '\n');
    } else {
      assert Separator == "," + ['\n'];
      assert FeatureCollection(ds) == Opening + ['\n'] + Join(ds, "," + ['\n']) + ['\n'] + "]}";
      SplitFramed(Opening, ds, ",", "]}", '\n');
    }
  }

  /** Newline-delimited output splits back into the dumps, in order, and one
      empty piece after the final newline: nothing else is written. */
  lemma JsonLinesRoundTrip(ds: seq<string>)
    requires forall i :: 0 <= i < |ds| ==> '\n' !in ds[i]
    ensures SplitOn(JsonLines(ds), '\n') == ds + [""]
    ensures Count(JsonLines(ds), '\n') == |ds|
  {
    TerminatedAsJoin(ds, "\n");
    var xs := ds + [""];
    assert forall i :: 0 <= i < |xs| ==> '\n' !in xs[i];
    SplitJoinRoundTrip(xs, '\n');
    CountTerminated(ds, "\n", '\n');
  }

  /** Lines 68-72: each feature's dump and a newline, in iteration order. */
  method WriteJsonLines<F>(out: OutFile, features: seq<F>, dumps: F -> string)
    modifies out
    ensures out.text == old(out.text) + JsonLines(Map(dumps, features))
  {
    for i := 0 to |features|
      invariant out.text == old(out.text) + JsonLines(Map(dumps, features[..i]))
    {
      assert Map(dumps, features[..i + 1])[..i] == Map(dumps, features[..i]);
      out.Write(dumps(features[i]));
      out.Write("\n");
    }
    assert features[..|features|] == features;
  }

  lemma TerminatedSnoc(xs: seq<string>, i: nat, t: string)
    requires 0 < i <= |xs|
    ensures Terminated(xs[..i], t) == Terminated(xs[..i - 1], t) + xs[i - 1] + t
  {
    assert xs[..i][..i - 1] == xs[..i - 1];
  }

  /** Lines 76-81: `next` on the iterator until it raises StopIteration,
      writing each feature's dump; a separator is written only once a further
      feature has been fetched, so none follows the last. */
  method WriteFeatures<F>(out: OutFile, features: seq<F>, dumps: F -> string, sep: string)
    modifies out
    ensures out.text == old(out.text) + Join(Map(dumps, features), sep)
  {
    ghost var ds := Map(dumps, features);
    var next := 0;                       // how far `feature_iter` has advanced
    if next < |features| {
      var feature := features[next];
      next := next + 1;
      while true
        invariant 1 <= next <= |features| && feature == features[next - 1]
        invariant out.text == old(out.text) + Terminated(ds[..next - 1], sep)
        decreases |features| - next
      {
        out.Write(dumps(feature));
        if next == |features| {
          break;
        }
        feature := features[next];
        out.Write(sep);
        TerminatedSnoc(ds, next, sep);
        next := next + 1;
      }
      JoinAsTerminated(ds, sep);
    }
  }

  /** Lines 74-84: the header, the features, and the footer written once
      StopIteration is raised. */
  method WriteFeatureCollection<F>(out: OutFile, features: seq<F>, dumps: F -> string)
    modifies out
    ensures out.text == old(out.text) + FeatureCollection(Map(dumps, features))
  {
    out.Write(Header);
    WriteFeatures(out, features, dumps, Separator);
    out.Write("\n");
    out.Write("]}");
  }

  /** Lines 63-84: the first mode that is set writes, then `main` returns. */
  method Dump<F>(out: OutFile, args: Args, features: seq<F>, dumps: F -> string, csv: seq<F> -> string)
    modifies out
    ensures out.text == old(out.text) + Output(args, features, dumps, csv)
  {
    if args.csv {
      out.Write(csv(features));
      return;
    }
    if args.jsonlines {
      WriteJsonLines(out, features, dumps);
      return;
    }
    WriteFeatureCollection(out, features, dumps);
  }
}
