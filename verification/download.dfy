/** The downloader's accumulation loop: the sheets are fetched one after the
    other and every truthy result is sliced onto the end of the frame list. */
module Downloader {
  import opened Sprites

  /** The result of one fetch: `None` stands for a falsy response. */
  datatype Option<T> = None | Some(value: T)

  /** The sheets that arrived, in URL order; falsy results are dropped. */
  function Loaded(results: seq<Option<Blob>>): seq<Blob> {
    if |results| == 0 then []
    else
      var last := results[|results| - 1];
      Loaded(results[..|results| - 1]) + (if last.Some? then [last.value] else [])
  }

  /** The frames a sequence of sheets contributes, sheet after sheet. */
  function Sheets(blobs: seq<Blob>): seq<Frame> {
    if |blobs| == 0 then []
    else Sheets(blobs[..|blobs| - 1]) + SheetFrames(blobs[|blobs| - 1])
  }

  /** Every result is either loaded or falsy: the loaded sheets number the
      results minus the falsy ones. */
  lemma {:induction false} LoadedLength(results: seq<Option<Blob>>)
    ensures |Loaded(results)| == |results| - multiset(results)[None]
  {
    if |results| > 0 {
      var init := results[..|results| - 1];
      LoadedLength(init);
      assert results == init + [results[|results| - 1]];
      assert multiset(results) == multiset(init) + multiset{results[|results| - 1]};
    }
  }

  /** Loading is compositional: the results of two consecutive runs of URLs
      load the sheets of the first run followed by those of the second. */
  lemma {:induction false} LoadedAppend(a: seq<Option<Blob>>, b: seq<Option<Blob>>)
    ensures Loaded(a + b) == Loaded(a) + Loaded(b)
  {
    if |b| > 0 {
      var init := b[..|b| - 1];
      LoadedAppend(a, init);
      assert (a + b)[..|a + b| - 1] == a + init;
    } else {
      assert a + b == a;
    }
  }

  /** A falsy result contributes nothing, wherever it stands. */
  lemma LoadedSkipsFalsy(a: seq<Option<Blob>>, b: seq<Option<Blob>>)
    ensures Loaded(a + [None] + b) == Loaded(a + b)
  {
    LoadedAppend(a + [None], b);
    LoadedAppend(a, [None]);
    LoadedAppend(a, b);
    assert Loaded([None]) == [];
  }

  /** When every fetch succeeds, every sheet is loaded, in URL order. */
  lemma {:induction false} LoadedAllTruthy(results: seq<Option<Blob>>)
    requires forall i :: 0 <= i < |results| ==> results[i].Some?
    ensures |Loaded(results)| == |results|
    ensures forall i :: 0 <= i < |results| ==> Loaded(results)[i] == results[i].value
  {
    if |results| > 0 {
      LoadedAllTruthy(results[..|results| - 1]);
    }
  }

  /** Each sheet adds exactly 25 frames. */
  lemma {:induction false} SheetsLength(blobs: seq<Blob>)
    ensures |Sheets(blobs)| == FramesPerSheet * |blobs|
  {
    if |blobs| > 0 {
      SheetsLength(blobs[..|blobs| - 1]);
    }
  }

  /** Frame `25 * m + k` of the accumulated list is cell `k` of the `m`-th
      sheet: sheets stay contiguous and in order. */
  lemma {:induction false} SheetsAt(blobs: seq<Blob>, m: int, k: int)
    requires 0 <= m < |blobs| && 0 <= k < FramesPerSheet
    ensures FramesPerSheet * m + k < |Sheets(blobs)|
    ensures Sheets(blobs)[FramesPerSheet * m + k] == Cell(blobs[m], k)
  {
    var init := blobs[..|blobs| - 1];
    SheetsLength(init);
    SheetsLength(blobs);
    if m < |blobs| - 1 {
      SheetsAt(init, m, k);
    }
  }

  /** One more result loads its sheet when it is truthy and nothing
      otherwise. */
  lemma LoadedStep(results: seq<Option<Blob>>, i: int)
    requires 0 <= i < |results|
    ensures Loaded(results[..i + 1])
            == Loaded(results[..i]) + (if results[i].Some? then [results[i].value] else [])
  {
    assert results[..i + 1][..i] == results[..i];
  }

  /** One more sheet appends its 25 frames. */
  lemma SheetsStep(blobs: seq<Blob>, data: Blob)
    ensures Sheets(blobs + [data]) == Sheets(blobs) + SheetFrames(data)
  {
    assert (blobs + [data])[..|blobs|] == blobs;
  }

  /** `download`'s loop: the results arrive in URL order and each truthy one
      is sliced onto the end of the list. */
  method Download(frames: seq<Frame>, results: seq<Option<Blob>>) returns (r: seq<Frame>)
    ensures r == frames + Sheets(Loaded(results))
    ensures |r| == |frames| + FramesPerSheet * |Loaded(results)|
    ensures r[..|frames|] == frames
  {
    r := frames;
    for i := 0 to |results|
      invariant r == frames + Sheets(Loaded(results[..i]))
    {
      LoadedStep(results, i);
      if results[i].Some? {
        var loaded := Loaded(results[..i]);
        SheetsStep(loaded, results[i].value);
        r := ParseJpg(r, results[i].value);
        assert Loaded(results[..i + 1]) == loaded + [results[i].value];
        assert r == frames + Sheets(loaded + [results[i].value]);
      } else {
        assert Loaded(results[..i + 1]) == Loaded(results[..i]);
      }
    }
    assert results[..|results|] == results;
    SheetsLength(Loaded(results));
  }

  /** The frame count after a download: 25 per truthy result, nothing for a
      falsy one. */
  lemma DownloadedCount(frames: seq<Frame>, results: seq<Option<Blob>>)
    ensures |frames + Sheets(Loaded(results))| == |frames| + FramesPerSheet * (|results| - multiset(results)[None])
  {
    LoadedLength(results);
    SheetsLength(Loaded(results));
  }
}
