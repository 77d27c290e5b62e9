/**
 * Managers/Network/NetworkManager.swift: the latch that keeps the first
 * acceptable URL the web view reports, persisted under "saved_url". A URL
 * is its absolute string and its host, if any; what `URL(string:)` makes of
 * a stored string is the parameter `parse`. The network request and the
 * user-agent strings are left out.
 */
module Network {
  import opened Wrappers

  datatype Url = Url(absoluteString: string, host: Option<string>)

  /** `sub` occurs in `s` at offset `i`. */
  predicate OccursAt(s: string, sub: string, i: int)
  {
    0 <= i <= |s| - |sub| && s[i..i + |sub|] == sub
  }

  /** `contains` on strings: `sub` occurs in `s` at some offset. */
  predicate HasSubstring(s: string, sub: string)
  {
    exists i :: 0 <= i <= |s| - |sub| && OccursAt(s, sub, i)
  }

  /** A string without the first character of `sub` does not contain it. */
  lemma MissingFirstChar(s: string, sub: string)
    requires |sub| > 0 && forall k :: 0 <= k < |s| ==> s[k] != sub[0]
    ensures !HasSubstring(s, sub)
  {
    forall i | 0 <= i <= |s| - |sub|
      ensures !OccursAt(s, sub, i)
    {
      assert s[i..i + |sub|][0] == s[i];
    }
  }

  /** The strings that are never kept. */
  const InvalidUrls: seq<string> := ["about:blank", "about:srcdoc"]

  /** `isInvalidURL`: a blank page, or any page whose host mentions google.com. */
  predicate IsInvalidUrl(url: Url)
  {
    url.absoluteString in InvalidUrls || (url.host.Some? && HasSubstring(url.host.value, "google.com"))
  }

  /**
   * The blank pages and Google's hosts are refused, as is any host with
   * "google.com" inside it; the app's own start URL is accepted.
   */
  lemma InvalidExamples()
    ensures IsInvalidUrl(Url("about:blank", None)) && IsInvalidUrl(Url("about:srcdoc", None))
    ensures IsInvalidUrl(Url("https://www.google.com/", Some("www.google.com")))
    ensures IsInvalidUrl(Url("https://notgoogle.com/", Some("notgoogle.com")))
    ensures !IsInvalidUrl(Url("https://foxwoodonline.pro/get", Some("foxwoodonline.pro")))
  {
    assert OccursAt("www.google.com", "google.com", 4);
    assert OccursAt("notgoogle.com", "google.com", 3);
    var own := "foxwoodonline.pro";
    forall k | 0 <= k < |own|
      ensures own[k] != 'g'
    {
    }
    MissingFirstChar(own, "google.com");
  }

  /** What one `checkURL` does to the kept URL: the first acceptable URL is kept for good. */
  function Latch(kept: Option<Url>, url: Url): (r: Option<Url>)
  {
    if kept.Some? then kept
    else if IsInvalidUrl(url) then kept
    else Some(url)
  }

  /** The kept URL after a series of `checkURL` calls. */
  function CheckAll(kept: Option<Url>, urls: seq<Url>): Option<Url>
    decreases |urls|
  {
    if |urls| == 0 then kept else CheckAll(Latch(kept, urls[0]), urls[1..])
  }

  /** The first acceptable URL of a series, if any. */
  function FirstValid(urls: seq<Url>): (r: Option<Url>)
    ensures r.Some? ==> r.value in urls && !IsInvalidUrl(r.value)
    ensures r.None? ==> forall u :: u in urls ==> IsInvalidUrl(u)
    decreases |urls|
  {
    if |urls| == 0 then None
    else if !IsInvalidUrl(urls[0]) then Some(urls[0])
    else FirstValid(urls[1..])
  }

  /**
   * Once a URL is kept no later check changes it; before that, a series of
   * checks keeps the first acceptable URL it reports.
   */
  lemma {:induction false} CheckAllKeepsFirstValid(kept: Option<Url>, urls: seq<Url>)
    ensures kept.Some? ==> CheckAll(kept, urls) == kept
    ensures kept.None? ==> CheckAll(kept, urls) == FirstValid(urls)
    decreases |urls|
  {
    if |urls| > 0 {
      CheckAllKeepsFirstValid(Latch(kept, urls[0]), urls[1..]);
    }
  }

  class NetworkManager {
    var checkedURL: Option<Url>
    var didSaveURL: bool
    /** The string stored under "saved_url". */
    var savedURL: Option<string>

    /** The latch is set exactly when a URL is kept. */
    ghost predicate Valid()
      reads this
    {
      didSaveURL <==> checkedURL.Some?
    }

    /**
     * `init` with `loadCheckedURL`: a stored string that parses is the kept
     * URL and sets the latch; otherwise nothing is kept.
     */
    constructor(stored: Option<string>, parse: string -> Option<Url>)
      ensures Valid() && savedURL == stored
      ensures stored.Some? && parse(stored.value).Some? ==> checkedURL == parse(stored.value) && didSaveURL
      ensures stored.None? || parse(stored.value).None? ==> checkedURL.None? && !didSaveURL
    {
      savedURL := stored;
      checkedURL := None;
      didSaveURL := false;
      if stored.Some? {
        var url := parse(stored.value);
        if url.Some? {
          checkedURL := url;
          didSaveURL := true;
        }
      }
    }

    /**
     * `checkURL`: nothing once a URL is kept, nothing for an invalid URL;
     * otherwise the URL is stored, kept and the latch set.
     */
    method CheckURL(url: Url)
      modifies this
      requires Valid()
      ensures Valid()
      ensures checkedURL == Latch(old(checkedURL), url)
      ensures old(didSaveURL) || IsInvalidUrl(url) ==> savedURL == old(savedURL) && checkedURL == old(checkedURL)
      ensures !old(didSaveURL) && !IsInvalidUrl(url) ==>
        savedURL == Some(url.absoluteString) && checkedURL == Some(url) && didSaveURL
    {
      if didSaveURL {
        return;
      }
      if IsInvalidUrl(url) {
        return;
      }
      savedURL := Some(url.absoluteString);
      checkedURL := Some(url);
      didSaveURL := true;
    }
  }
}
