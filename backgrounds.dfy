/** The background list kept on the server and the client calls that edit it
    (src/lib/backgroundService.ts). */
module BackgroundService {
  import opened Wrappers
  import opened JsString

  /** `addCacheBuster(url)` at time `now` (both `Date.now()` calls are taken to read the same
      instant): an empty URL is returned as it is; otherwise `&t=<now>` is appended when the URL
      already has a `?`, and `?t=<now>` when it has none. */
  function AddCacheBuster(url: string, now: nat): (r: string)
    ensures url == "" ==> r == ""
    ensures url != "" ==> |r| > |url| && r[..|url|] == url
    ensures url != "" ==> r[|url|] == (if '?' in url then '&' else '?')
    ensures url != "" ==> r[|url| + 1..] == "t=" + NatToString(now)
  {
    if url == "" then url
    else if '?' in url then url + "&t=" + NatToString(now)
    else url + "?t=" + NatToString(now)
  }

  /** The result has exactly one `?` more than the input when the input had none, and the same
      number of `?` (none added) when it had one: the query string is never started twice. */
  lemma CacheBusterQueryMark(url: string, now: nat)
    requires url != ""
    ensures '?' in AddCacheBuster(url, now)
    ensures '?' in url ==> forall i :: |url| <= i < |AddCacheBuster(url, now)| ==> AddCacheBuster(url, now)[i] != '?'
  {
    var r := AddCacheBuster(url, now);
    assert r[|url|] == (if '?' in url then '&' else '?');
    if '?' in url {
      var digits := NatToString(now);
      forall i | |url| <= i < |r| ensures r[i] != '?' {
        if i > |url| + 2 {
          assert r[i] == digits[i - |url| - 3];
        }
      }
    }
  }

  /** The response of `fetch('/api/backgrounds')` as `getBackgrounds` sees it: not ok, a thrown
      error, or an ok JSON body whose `backgrounds` field is present or not. */
  datatype BackgroundsResponse = NotOk | Threw | Ok(backgrounds: Option<seq<string>>)

  /** `getBackgrounds()`: the stored list, or `[]` whenever it cannot be had. */
  function GetBackgrounds(response: BackgroundsResponse): (list: seq<string>)
    ensures !response.Ok? ==> list == []
    ensures response.Ok? && response.backgrounds.None? ==> list == []
    ensures response.Ok? && response.backgrounds.Some? ==> list == response.backgrounds.value
  {
    match response
    case Ok(Some(backgrounds)) => backgrounds
    case _ => []
  }

  /** How many times `x` occurs in `s`. */
  function Count(s: seq<string>, x: string): (n: nat)
    ensures n <= |s|
    ensures n == 0 <==> x !in s
  {
    if |s| == 0 then 0 else (if s[0] == x then 1 else 0) + Count(s[1..], x)
  }

  lemma {:induction false} CountAppend(s: seq<string>, t: seq<string>, x: string)
    ensures Count(s + t, x) == Count(s, x) + Count(t, x)
    decreases |s|
  {
    if |s| == 0 {
      assert s + t == t;
    } else {
      assert (s + t)[1..] == s[1..] + t;
      CountAppend(s[1..], t, x);
    }
  }

  /** `backgrounds.filter(bg => bg !== imageUrl)`. */
  function RemoveAll(s: seq<string>, x: string): (r: seq<string>)
    ensures x !in r
    ensures |r| <= |s|
    ensures forall y :: y in r ==> y in s
  {
    if |s| == 0 then []
    else if s[0] == x then RemoveAll(s[1..], x)
    else [s[0]] + RemoveAll(s[1..], x)
  }

  /** The filter keeps every other element as often as it occurred. */
  lemma {:induction false} RemoveAllCounts(s: seq<string>, x: string, y: string)
    ensures Count(RemoveAll(s, x), y) == if y == x then 0 else Count(s, y)
    decreases |s|
  {
    if |s| > 0 {
      RemoveAllCounts(s[1..], x, y);
      if s[0] != x {
        assert ([s[0]] + RemoveAll(s[1..], x))[1..] == RemoveAll(s[1..], x);
      }
    }
  }

  /** The filter keeps the other elements in their order: what remains is `s` with the
      occurrences of `x` taken out, so putting the removed positions back recovers `s`. */
  lemma {:induction false} RemoveAllLength(s: seq<string>, x: string)
    ensures |RemoveAll(s, x)| == |s| - Count(s, x)
    ensures |RemoveAll(s, x)| == |s| <==> x !in s
    ensures x !in s ==> RemoveAll(s, x) == s
    decreases |s|
  {
    if |s| > 0 {
      RemoveAllLength(s[1..], x);
      if x !in s {
        assert s == [s[0]] + s[1..];
      }
    }
  }

  /** Order is kept: the filtered list of a concatenation is the concatenation of the
      filtered lists. */
  lemma {:induction false} RemoveAllAppend(s: seq<string>, t: seq<string>, x: string)
    ensures RemoveAll(s + t, x) == RemoveAll(s, x) + RemoveAll(t, x)
    decreases |s|
  {
    if |s| == 0 {
      assert s + t == t;
    } else {
      assert (s + t)[0] == s[0];
      assert (s + t)[1..] == s[1..] + t;
      RemoveAllAppend(s[1..], t, x);
    }
  }

  /** `addBackground(imageUrl)`: the list `posted` to `saveBackgrounds` (`None` when nothing
      is posted) and the boolean it resolves with, given what the fetch returned and what the
      save reports. */
  method AddBackground(response: BackgroundsResponse, imageUrl: string, saveOk: bool)
    returns (posted: Option<seq<string>>, ok: bool)
    ensures imageUrl in GetBackgrounds(response) ==> posted == None && ok
    ensures imageUrl !in GetBackgrounds(response) ==>
      posted == Some(GetBackgrounds(response) + [imageUrl]) && ok == saveOk
  {
    var backgrounds := GetBackgrounds(response);
    if imageUrl !in backgrounds {
      backgrounds := backgrounds + [imageUrl];
      posted := Some(backgrounds);
      ok := saveOk;
      return;
    }
    posted := None;
    ok := true;
  }

  /** `removeBackground(imageUrl)`, in the same terms. */
  method RemoveBackground(response: BackgroundsResponse, imageUrl: string, saveOk: bool)
    returns (posted: Option<seq<string>>, ok: bool)
    ensures imageUrl in GetBackgrounds(response) ==>
      posted == Some(RemoveAll(GetBackgrounds(response), imageUrl)) && ok == saveOk
    ensures imageUrl !in GetBackgrounds(response) ==> posted == None && ok
  {
    var backgrounds := GetBackgrounds(response);
    var updated := RemoveAll(backgrounds, imageUrl);
    RemoveAllLength(backgrounds, imageUrl);
    if |updated| != |backgrounds| {
      posted := Some(updated);
      ok := saveOk;
      return;
    }
    posted := None;
    ok := true;
  }

  /** An added URL occurs exactly once in the posted list, after the old elements. */
  lemma AddedExactlyOnce(old_list: seq<string>, imageUrl: string)
    requires imageUrl !in old_list
    ensures Count(old_list + [imageUrl], imageUrl) == 1
    ensures forall y :: y != imageUrl ==> Count(old_list + [imageUrl], y) == Count(old_list, y)
  {
    forall y ensures Count(old_list + [imageUrl], y) == Count(old_list, y) + Count([imageUrl], y) {
      CountAppend(old_list, [imageUrl], y);
    }
    assert [imageUrl][1..] == [];
  }

  /** Removing a URL just added restores the list it was added to. */
  lemma RemoveUndoesAdd(old_list: seq<string>, imageUrl: string)
    requires imageUrl !in old_list
    ensures RemoveAll(old_list + [imageUrl], imageUrl) == old_list
  {
    RemoveAllAppend(old_list, [imageUrl], imageUrl);
    RemoveAllLength(old_list, imageUrl);
    assert RemoveAll([imageUrl], imageUrl) == [];
  }
}
