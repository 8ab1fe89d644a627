/** The retrieval-result extraction loop of the handler: it keeps the non-empty
    texts and builds one source record per result that carries an S3 location. */
module Retrieval {
  import opened Wrappers
  import opened Strings

  /** Length the source previews are cut to. */
  const PreviewLength: nat := 100
  /** `truncateText`'s default `maxLength`. */
  const DefaultMaxLength: nat := 500
  const Ellipsis := "..."
  const UnknownFilename := "Unknown"

  /** One retrieval result: `content.text` (absent is "") and, when the result has
      an S3 location, that location's `uri` (absent is ""). */
  datatype RetrievalResult = RetrievalResult(text: string, s3Uri: Option<string>)

  /** A source record as sent back to the caller. */
  datatype Source = Source(uri: string, filename: string, snippet: string)

  /** `truncateText(text, maxLength)`: the text itself when short enough, else its
      first `maxLength` characters followed by "...". */
  function Truncate(text: string, maxLength: nat := DefaultMaxLength): (r: string)
    ensures |text| <= maxLength ==> r == text
    ensures |text| > maxLength ==> |r| == maxLength + |Ellipsis|
    ensures |text| > maxLength ==> r[..maxLength] == text[..maxLength] && r[maxLength..] == Ellipsis
  {
    if |text| <= maxLength then text else text[..maxLength] + Ellipsis
  }

  /** `uri.split('/').pop()`: the part of `uri` after its last `/`. */
  function LastSegment(uri: string): (r: string)
    ensures |r| <= |uri| && r == uri[|uri| - |r|..]
    ensures forall i :: 0 <= i < |r| ==> r[i] != '/'
    ensures |r| < |uri| ==> uri[|uri| - |r| - 1] == '/'
  {
    if uri == [] || uri[|uri| - 1] == '/' then []
    else LastSegment(uri[..|uri| - 1]) + [uri[|uri| - 1]]
  }

  /** `uri.split('/').pop() || "Unknown"`. */
  function Filename(uri: string): string {
    var last := LastSegment(uri);
    if last == [] then UnknownFilename else last
  }

  /** A filename is never empty and never holds a `/`: it is the URI's last segment,
      or "Unknown" when the URI is empty or ends in `/`. */
  lemma FilenameOf(uri: string)
    ensures Filename(uri) != [] && forall i :: 0 <= i < |Filename(uri)| ==> Filename(uri)[i] != '/'
    ensures uri == [] || uri[|uri| - 1] == '/' ==> Filename(uri) == UnknownFilename
    ensures uri != [] && uri[|uri| - 1] != '/' ==> Filename(uri) == LastSegment(uri)
  {
    assert UnknownFilename == ['U', 'n', 'k', 'n', 'o', 'w', 'n'];
  }

  function SourceOf(text: string, uri: string): Source {
    Source(uri, Filename(uri), Truncate(text, PreviewLength))
  }

  /** The texts the loop keeps from `rs`: the non-empty ones, in order. */
  function KeptTexts(rs: seq<RetrievalResult>): (texts: seq<string>)
    ensures |texts| <= |rs|
    ensures forall k :: 0 <= k < |texts| ==> texts[k] != ""
  {
    if rs == [] then []
    else
      var last := rs[|rs| - 1];
      KeptTexts(rs[..|rs| - 1]) + (if last.text != "" then [last.text] else [])
  }

  /** The sources the loop builds from `rs`: one per result with an S3 location. */
  function SourcesOf(rs: seq<RetrievalResult>): (sources: seq<Source>)
    ensures |sources| <= |rs|
  {
    if rs == [] then []
    else
      var last := rs[|rs| - 1];
      SourcesOf(rs[..|rs| - 1]) + (if last.s3Uri.Some? then [SourceOf(last.text, last.s3Uri.value)] else [])
  }

  /** The `for` loop over `retrieveResponse.retrievalResults`. */
  method ExtractResults(results: seq<RetrievalResult>) returns (texts: seq<string>, sources: seq<Source>)
    ensures texts == KeptTexts(results)
    ensures sources == SourcesOf(results)
  {
    texts, sources := [], [];
    var i := 0;
    while i < |results|
      invariant 0 <= i <= |results|
      invariant texts == KeptTexts(results[..i])
      invariant sources == SourcesOf(results[..i])
    {
      var result := results[i];
      var content := result.text;
      if content != "" {
        texts := texts + [content];
      }
      if result.s3Uri.Some? {
        var uri := result.s3Uri.value;
        sources := sources + [Source(uri, Filename(uri), Truncate(content, PreviewLength))];
      }
      assert results[..i + 1][..i] == results[..i];
      i := i + 1;
    }
    assert results[..|results|] == results;
  }

  // ---------------------------------------------------------------------------
  // What the loop keeps

  /** The loop keeps no text exactly when every result's text is empty. */
  lemma {:induction false} KeptTextsEmpty(rs: seq<RetrievalResult>)
    ensures KeptTexts(rs) == [] <==> forall i :: 0 <= i < |rs| ==> rs[i].text == ""
  {
    if rs != [] {
      var init := rs[..|rs| - 1];
      KeptTextsEmpty(init);
      assert forall i :: 0 <= i < |init| ==> init[i] == rs[i];
    }
  }

  /** What the loop has kept after `i` results is what it keeps overall up to there. */
  lemma {:induction false} KeptTextsPrefix(rs: seq<RetrievalResult>, i: nat)
    requires i <= |rs|
    ensures KeptTexts(rs[..i]) <= KeptTexts(rs)
    decreases |rs|
  {
    if i < |rs| {
      var init := rs[..|rs| - 1];
      assert init[..i] == rs[..i];
      KeptTextsPrefix(init, i);
    } else {
      assert rs[..i] == rs;
    }
  }

  /** Each non-empty text is kept, at the position given by the texts kept before it. */
  lemma KeptTextAt(rs: seq<RetrievalResult>, i: nat)
    requires i < |rs| && rs[i].text != ""
    ensures |KeptTexts(rs[..i])| < |KeptTexts(rs)|
    ensures KeptTexts(rs)[|KeptTexts(rs[..i])|] == rs[i].text
  {
    assert rs[..i + 1][..i] == rs[..i];
    KeptTextsPrefix(rs, i + 1);
  }

  /** Every kept text comes from one result, found at index `i`, and the texts kept
      before it from the results before that one. */
  lemma {:induction false} KeptTextFrom(rs: seq<RetrievalResult>, k: nat) returns (i: nat)
    requires k < |KeptTexts(rs)|
    ensures i < |rs| && rs[i].text == KeptTexts(rs)[k]
    ensures |KeptTexts(rs[..i])| == k
    decreases |rs|
  {
    var init := rs[..|rs| - 1];
    if k < |KeptTexts(init)| {
      i := KeptTextFrom(init, k);
      assert init[..i] == rs[..i] && init[i] == rs[i];
    } else {
      i := |rs| - 1;
    }
  }

  /** What the loop has built after `i` results is what it builds overall up to there. */
  lemma {:induction false} SourcesPrefix(rs: seq<RetrievalResult>, i: nat)
    requires i <= |rs|
    ensures SourcesOf(rs[..i]) <= SourcesOf(rs)
    decreases |rs|
  {
    if i < |rs| {
      var init := rs[..|rs| - 1];
      assert init[..i] == rs[..i];
      SourcesPrefix(init, i);
    } else {
      assert rs[..i] == rs;
    }
  }

  /** Each result with an S3 location gives one source, whatever its text, at the
      position given by the located results before it. */
  lemma SourceAt(rs: seq<RetrievalResult>, i: nat)
    requires i < |rs| && rs[i].s3Uri.Some?
    ensures |SourcesOf(rs[..i])| < |SourcesOf(rs)|
    ensures SourcesOf(rs)[|SourcesOf(rs[..i])|] == SourceOf(rs[i].text, rs[i].s3Uri.value)
  {
    assert rs[..i + 1][..i] == rs[..i];
    SourcesPrefix(rs, i + 1);
  }

  /** The sources a result adds are its own. */
  lemma SourceFromLast(rs: seq<RetrievalResult>, k: nat)
    requires rs != [] && |SourcesOf(rs[..|rs| - 1])| <= k < |SourcesOf(rs)|
    ensures rs[|rs| - 1].s3Uri.Some? && k == |SourcesOf(rs[..|rs| - 1])|
    ensures SourcesOf(rs)[k] == SourceOf(rs[|rs| - 1].text, rs[|rs| - 1].s3Uri.value)
  {
  }

  /** Every source comes from one located result, found at index `i`. */
  lemma {:induction false} SourceFrom(rs: seq<RetrievalResult>, k: nat) returns (i: nat)
    requires k < |SourcesOf(rs)|
    ensures i < |rs| && rs[i].s3Uri.Some?
    ensures SourcesOf(rs)[k] == SourceOf(rs[i].text, rs[i].s3Uri.value)
    ensures |SourcesOf(rs[..i])| == k
    decreases |rs|
  {
    var init := rs[..|rs| - 1];
    if k < |SourcesOf(init)| {
      i := SourceFrom(init, k);
      assert init[..i] == rs[..i] && init[i] == rs[i];
      assert SourcesOf(rs)[k] == SourcesOf(init)[k];
    } else {
      SourceFromLast(rs, k);
      i := |rs| - 1;
    }
  }

  /** When every text is non-empty, every one is kept, in order. */
  lemma {:induction false} AllTextsKept(rs: seq<RetrievalResult>)
    requires forall i :: 0 <= i < |rs| ==> rs[i].text != ""
    ensures |KeptTexts(rs)| == |rs|
    ensures forall i :: 0 <= i < |rs| ==> KeptTexts(rs)[i] == rs[i].text
  {
    if rs != [] {
      var init := rs[..|rs| - 1];
      assert forall i :: 0 <= i < |init| ==> init[i] == rs[i];
      AllTextsKept(init);
      assert KeptTexts(rs) == KeptTexts(init) + [rs[|rs| - 1].text];
    }
  }

  /** When every result has an S3 location, there is one source per result, in order. */
  lemma {:induction false} AllSourcesBuilt(rs: seq<RetrievalResult>)
    requires forall i :: 0 <= i < |rs| ==> rs[i].s3Uri.Some?
    ensures |SourcesOf(rs)| == |rs|
    ensures forall i :: 0 <= i < |rs| ==> SourcesOf(rs)[i] == SourceOf(rs[i].text, rs[i].s3Uri.value)
  {
    if rs != [] {
      var init := rs[..|rs| - 1];
      var last := rs[|rs| - 1];
      assert forall i :: 0 <= i < |init| ==> init[i] == rs[i];
      AllSourcesBuilt(init);
      assert SourcesOf(rs) == SourcesOf(init) + [SourceOf(last.text, last.s3Uri.value)];
    }
  }

  /** When every result has a non-empty text and an S3 location, the kept texts and
      the sources line up: both have one entry per result, in the same order. */
  lemma AlignedWhenComplete(rs: seq<RetrievalResult>)
    requires forall i :: 0 <= i < |rs| ==> rs[i].text != "" && rs[i].s3Uri.Some?
    ensures |KeptTexts(rs)| == |SourcesOf(rs)| == |rs|
    ensures forall i :: 0 <= i < |rs| ==>
      KeptTexts(rs)[i] == rs[i].text && SourcesOf(rs)[i] == SourceOf(rs[i].text, rs[i].s3Uri.value)
  {
    AllTextsKept(rs);
    AllSourcesBuilt(rs);
  }
}
