/** The home page's check on the background paths it loads (src/app/page.tsx). */
module HomePage {
  import opened JsString

  /** `bg && bg.startsWith('/backgrounds/') && (bg.endsWith('.jpg') || …)`: a non-empty path
      under `/backgrounds/` with one of five image suffixes, compared case-sensitively. */
  predicate IsValidBackground(bg: string) {
    bg != "" && StartsWith(bg, "/backgrounds/") &&
    (EndsWith(bg, ".jpg") || EndsWith(bg, ".jpeg") || EndsWith(bg, ".png") ||
     EndsWith(bg, ".webp") || EndsWith(bg, ".gif"))
  }

  /** `loadedBackgrounds.filter(...)`. */
  function FilterBackgrounds(loaded: seq<string>): (valid: seq<string>)
    ensures |valid| <= |loaded|
    ensures forall i :: 0 <= i < |valid| ==> IsValidBackground(valid[i])
  {
    if |loaded| == 0 then []
    else if IsValidBackground(loaded[0]) then [loaded[0]] + FilterBackgrounds(loaded[1..])
    else FilterBackgrounds(loaded[1..])
  }

  /** `a` can be obtained from `b` by deleting elements, without reordering. */
  predicate IsSubsequence(a: seq<string>, b: seq<string>)
    decreases |b|
  {
    |a| == 0 || (|b| > 0 && ((a[0] == b[0] && IsSubsequence(a[1..], b[1..])) || IsSubsequence(a, b[1..])))
  }

  /** A path is kept exactly when it was loaded and is valid. */
  lemma {:induction false} FilterMembership(loaded: seq<string>, bg: string)
    ensures bg in FilterBackgrounds(loaded) <==> bg in loaded && IsValidBackground(bg)
    decreases |loaded|
  {
    if |loaded| > 0 {
      FilterMembership(loaded[1..], bg);
      assert loaded == [loaded[0]] + loaded[1..];
    }
  }

  /** The kept paths appear in the order they were loaded. */
  lemma {:induction false} FilterIsSubsequence(loaded: seq<string>)
    ensures IsSubsequence(FilterBackgrounds(loaded), loaded)
    decreases |loaded|
  {
    if |loaded| > 0 {
      FilterIsSubsequence(loaded[1..]);
      var rest := FilterBackgrounds(loaded[1..]);
      if IsValidBackground(loaded[0]) {
        assert ([loaded[0]] + rest)[1..] == rest;
      }
    }
  }

  /** Filtering a filtered list changes nothing. */
  lemma {:induction false} FilterIdempotent(loaded: seq<string>)
    ensures FilterBackgrounds(FilterBackgrounds(loaded)) == FilterBackgrounds(loaded)
    decreases |loaded|
  {
    if |loaded| > 0 {
      FilterIdempotent(loaded[1..]);
      var rest := FilterBackgrounds(loaded[1..]);
      if IsValidBackground(loaded[0]) {
        assert ([loaded[0]] + rest)[1..] == rest;
      }
    }
  }

  /** The `backgrounds` state after `loadBackgrounds`: replaced by the filtered list when the
      loaded list is non-empty (even if nothing in it is valid), kept otherwise. */
  function LoadBackgrounds(current: seq<string>, loaded: seq<string>): (next: seq<string>)
    ensures |loaded| == 0 ==> next == current
    ensures |loaded| > 0 ==> forall bg :: bg in next <==> bg in loaded && IsValidBackground(bg)
  {
    if |loaded| > 0 then
      var valid := FilterBackgrounds(loaded);
      assert forall bg :: bg in valid <==> bg in loaded && IsValidBackground(bg) by {
        forall bg ensures bg in valid <==> bg in loaded && IsValidBackground(bg) {
          FilterMembership(loaded, bg);
        }
      }
      valid
    else current
  }
}
