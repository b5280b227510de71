/**
 * `load_urls_from_file`: every line of the URL file, whitespace-stripped,
 * with blank lines dropped and file order kept.
 */
module UrlFile {
  import opened Text

  /** What one line contributes: its stripped form, unless that is empty. */
  function Kept(line: string): (urls: seq<string>)
    ensures |urls| <= 1
  {
    var u := Strip(line);
    if u == "" then [] else [u]
  }

  /** What `keep` makes of each line, concatenated in line order. */
  function Collect(keep: string -> seq<string>, lines: seq<string>): (urls: seq<string>)
    ensures lines == [] ==> urls == []
  {
    if lines == [] then []
    else Collect(keep, lines[..|lines| - 1]) + keep(lines[|lines| - 1])
  }

  /** When each line yields at most one item, there are no more items than lines. */
  lemma {:induction false} CollectAtMostOne(keep: string -> seq<string>, lines: seq<string>)
    requires forall line :: |keep(line)| <= 1
    ensures |Collect(keep, lines)| <= |lines|
  {
    if lines != [] {
      CollectAtMostOne(keep, lines[..|lines| - 1]);
    }
  }

  /** Order is kept: what two consecutive stretches of lines yield is concatenated. */
  lemma {:induction false} CollectAppend(keep: string -> seq<string>, a: seq<string>, b: seq<string>)
    ensures Collect(keep, a + b) == Collect(keep, a) + Collect(keep, b)
  {
    if b != [] {
      var b' := b[..|b| - 1];
      assert (a + b)[..|a + b| - 1] == a + b';
      CollectAppend(keep, a, b');
    } else {
      assert a + b == a;
    }
  }

  /** What a file yields, split around one of its lines. */
  lemma CollectAround(keep: string -> seq<string>, before: seq<string>, line: string, after: seq<string>)
    ensures Collect(keep, before + [line] + after) ==
      Collect(keep, before) + keep(line) + Collect(keep, after)
  {
    var upto := before + [line];
    assert upto[..|before|] == before;
    CollectAppend(keep, upto, after);
  }

  /** The URLs of a file whose text reads as `lines`. */
  function NonBlankLines(lines: seq<string>): (urls: seq<string>)
    ensures |urls| <= |lines|
  {
    CollectAtMostOne(Kept, lines);
    Collect(Kept, lines)
  }

  /** No URL returned is empty or has whitespace at either end. */
  lemma {:induction false} NonBlankLinesAreClean(lines: seq<string>)
    ensures forall k :: 0 <= k < |NonBlankLines(lines)| ==>
      NonBlankLines(lines)[k] != "" && Stripped(NonBlankLines(lines)[k])
  {
    if lines != [] {
      var init, last := lines[..|lines| - 1], lines[|lines| - 1];
      NonBlankLinesAreClean(init);
      assert NonBlankLines(lines) == NonBlankLines(init) + Kept(last);
    }
  }

  /** Order is kept: the URLs of two consecutive stretches of lines are concatenated. */
  lemma NonBlankLinesAppend(a: seq<string>, b: seq<string>)
    ensures NonBlankLines(a + b) == NonBlankLines(a) + NonBlankLines(b)
  {
    CollectAppend(Kept, a, b);
  }

  /**
   * Every non-blank line contributes its stripped form, after the URLs of
   * the lines before it and before those of the lines after it.
   */
  lemma NonBlankLineIsKept(before: seq<string>, line: string, after: seq<string>)
    requires Strip(line) != ""
    ensures NonBlankLines(before + [line] + after) ==
      NonBlankLines(before) + [Strip(line)] + NonBlankLines(after)
  {
    CollectAround(Kept, before, line, after);
  }

  /** Every URL returned is the stripped form of some line. */
  lemma {:induction false} KeptComesFromLine(lines: seq<string>, k: int) returns (i: int)
    requires 0 <= k < |NonBlankLines(lines)|
    ensures 0 <= i < |lines| && NonBlankLines(lines)[k] == Strip(lines[i])
  {
    var init := lines[..|lines| - 1];
    if k < |NonBlankLines(init)| {
      i := KeptComesFromLine(init, k);
      assert init[i] == lines[i];
    } else {
      i := |lines| - 1;
    }
  }

  /** Nothing is returned exactly when every line is blank. */
  lemma {:induction false} NonBlankLinesEmptyIffBlank(lines: seq<string>)
    ensures NonBlankLines(lines) == [] <==> forall i :: 0 <= i < |lines| ==> AllSpace(lines[i])
  {
    if lines != [] {
      var init, last := lines[..|lines| - 1], lines[|lines| - 1];
      assert lines == init + [last];
      NonBlankLinesEmptyIffBlank(init);
      StripEmptyIffBlank(last);
      assert NonBlankLines(lines) == NonBlankLines(init) + Kept(last);
      assert (forall i :: 0 <= i < |lines| ==> AllSpace(lines[i])) <==>
             (forall i :: 0 <= i < |init| ==> AllSpace(init[i])) && AllSpace(last);
    }
  }

  /** The loop of `load_urls_from_file`, over the lines `open` yields. */
  method LoadUrls(lines: seq<string>) returns (urls: seq<string>)
    ensures urls == NonBlankLines(lines)
  {
    urls := [];
    for i := 0 to |lines|
      invariant urls == NonBlankLines(lines[..i])
    {
      assert lines[..i + 1][..i] == lines[..i];
      var u := Strip(lines[i]);
      if u != "" {
        urls := urls + [u];
      }
    }
    assert lines[..|lines|] == lines;
  }
}
