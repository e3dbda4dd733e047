/** `cleanInstagramUrl` and its list of tracking parameters
    (script.js, lines 1-68). */
module Cleaner {
  import opened Text
  import opened Url

  /** The two ways `cleanInstagramUrl` fails. */
  datatype CleanError = InvalidUrlFormat | NotInstagramUrl

  datatype Result<T> = Success(value: T) | Failure(error: CleanError)

  /** The message of the `Error` the source throws. */
  function Message(e: CleanError): string {
    match e
    case InvalidUrlFormat => "Invalid URL format"
    case NotInstagramUrl => "Not an Instagram URL"
  }

  /** `TRACKING_PARAMS`: the names removed by exact match. */
  const TrackingParams: seq<string> := [
    "igsh",
    "igshid",
    "utm_source",
    "utm_medium",
    "utm_campaign",
    "utm_term",
    "utm_content",
    "fbclid",
    "ref",
    "share_source",
    "share_medium"
  ]

  /** The case-sensitive prefix test of the second removal pass. */
  predicate HasTrackingPrefix(key: string) {
    StartsWith(key, "utm_") || StartsWith(key, "ig_") || StartsWith(key, "fb_")
  }

  /** A key that one of the two removal passes deletes. */
  predicate IsTracking(key: string) {
    key in TrackingParams || HasTrackingPrefix(key)
  }

  /** Reference definition of what the removal passes keep: the pairs whose
      key is not a tracking key, in their original order, repeats included. */
  function Surviving(q: seq<Param>): (r: seq<Param>)
    ensures |r| <= |q|
    ensures forall i :: 0 <= i < |r| ==> !IsTracking(r[i].key)
  {
    if q == [] then []
    else
      var last := q[|q| - 1];
      Surviving(q[..|q| - 1]) + (if IsTracking(last.key) then [] else [last])
  }

  /** The keys the `forEach` of script.js:45-49 pushes onto `paramsToRemove`:
      each key with a tracking prefix, once per pair, in order. */
  function PrefixedKeys(q: seq<Param>): (r: seq<string>)
    ensures forall i :: 0 <= i < |r| ==> HasTrackingPrefix(r[i])
  {
    if q == [] then []
    else
      var last := q[|q| - 1];
      PrefixedKeys(q[..|q| - 1]) + (if HasTrackingPrefix(last.key) then [last.key] else [])
  }

  /** Scheme normalisation: the trimmed input, with `https://` put in front
      unless it already starts with `http://` or `https://`. */
  function Normalize(input: string): (r: string)
    ensures StartsWith(r, "http://") || StartsWith(r, "https://")
    ensures r == Trim(input) || r == "https://" + Trim(input)
  {
    var s := Trim(input);
    if !StartsWith(s, "http://") && !StartsWith(s, "https://") then
      assert ("https://" + s)[..8] == "https://";
      "https://" + s
    else s
  }

  /** The host test: substring containment on the lower-cased host name. */
  predicate IsInstagramHost(hostname: string) {
    var h := ToLower(hostname);
    Contains(h, "instagram.com") || Contains(h, "instagr.am")
  }

  /** `s`, with a `/` appended unless it already ends with one. */
  function WithTrailingSlash(s: string): (r: string)
    ensures EndsWith(r, "/")
    ensures r == s || r == s + "/"
  {
    if EndsWith(s, "/") then s
    else
      assert (s + "/")[|s|..] == "/";
      s + "/"
  }

  /** The rebuilt URL: origin and path with a trailing `/`, then `?` and the
      serialized query when the serialization is not empty. */
  function Rebuild(origin: string, pathname: string, kept: seq<Param>): (r: string)
    ensures StartsWith(r, origin + pathname)
  {
    var base := WithTrailingSlash(origin + pathname);
    var qs := SerializeQuery(kept);
    assert base[..|origin + pathname|] == origin + pathname;
    if qs != "" then
      assert (base + "?" + qs)[..|base|] == base;
      base + "?" + qs
    else base
  }

  /** What `cleanInstagramUrl(input)` returns or throws, given the URL parser. */
  function Clean(parse: string -> Option<ParsedUrl>, input: string): (r: Result<string>)
  {
    match parse(Normalize(input))
    case None => Failure(InvalidUrlFormat)
    case Some(url) =>
      if !IsInstagramHost(url.hostname) then Failure(NotInstagramUrl)
      else Success(Rebuild(url.origin, url.pathname, Surviving(url.query)))
  }

  /** `cleanInstagramUrl`, step by step: the query pairs live in a
      `SearchParams` object that the removal passes update in place. */
  method CleanInstagramUrl(parse: string -> Option<ParsedUrl>, inputUrl: string)
    returns (r: Result<string>)
    ensures r == Clean(parse, inputUrl)
  {
    var urlString := Trim(inputUrl);
    if !StartsWith(urlString, "http://") && !StartsWith(urlString, "https://") {
      urlString := "https://" + urlString;
    }
    var parsed := parse(urlString);
    if parsed.None? {
      return Failure(InvalidUrlFormat);
    }
    var Some(url) := parsed;

    var hostname := ToLower(url.hostname);
    if !Contains(hostname, "instagram.com") && !Contains(hostname, "instagr.am") {
      return Failure(NotInstagramUrl);
    }

    var searchParams := new SearchParams(url.query);
    searchParams.DeleteEach(TrackingParams);
    var paramsToRemove := CollectPrefixedKeys(searchParams.list);
    searchParams.DeleteEach(paramsToRemove);

    var cleanUrl := url.origin + url.pathname;
    if !EndsWith(cleanUrl, "/") {
      cleanUrl := cleanUrl + "/";
    }
    var qs := searchParams.ToString();
    if qs != "" {
      cleanUrl := cleanUrl + "?" + qs;
    }

    RemovalPassesKeepSurvivors(url.query);
    r := Success(cleanUrl);
  }

  // ---------------------------------------------------------------------
  // The removal passes

  /** The `forEach` of script.js:45-49: the keys of `live` with a tracking
      prefix, pushed in order, one per pair. */
  method CollectPrefixedKeys(live: seq<Param>) returns (paramsToRemove: seq<string>)
    ensures paramsToRemove == PrefixedKeys(live)
  {
    paramsToRemove := [];
    for i := 0 to |live|
      invariant paramsToRemove == PrefixedKeys(live[..i])
    {
      assert live[..i + 1][..i] == live[..i];
      var key := live[i].key;
      if StartsWith(key, "utm_") || StartsWith(key, "ig_") || StartsWith(key, "fb_") {
        paramsToRemove := paramsToRemove + [key];
      }
    }
    assert live[..|live|] == live;
  }

  /** The keys collected by the prefix pass are exactly the prefixed keys
      that occur in the list. */
  lemma {:induction false} PrefixedKeysMembers(q: seq<Param>, k: string)
    ensures k in PrefixedKeys(q) <==> HasTrackingPrefix(k) && exists i :: 0 <= i < |q| && q[i].key == k
  {
    if q != [] {
      var init := q[..|q| - 1];
      PrefixedKeysMembers(init, k);
      if exists i :: 0 <= i < |init| && init[i].key == k {
        var i :| 0 <= i < |init| && init[i].key == k;
        assert q[i].key == k;
      }
      if exists i :: 0 <= i < |q| && q[i].key == k {
        var i :| 0 <= i < |q| && q[i].key == k;
        if i < |init| {
          assert init[i].key == k;
        }
      }
    }
  }

  /** Filtering by a key set that agrees with IsTracking on every key present
      gives Surviving. */
  lemma {:induction false} WithoutTrackingKeys(q: seq<Param>, keys: set<string>)
    requires forall i :: 0 <= i < |q| ==> (q[i].key in keys <==> IsTracking(q[i].key))
    ensures WithoutKeys(q, keys) == Surviving(q)
  {
    if q != [] {
      WithoutTrackingKeys(q[..|q| - 1], keys);
    }
  }

  /** A key of the list is removed by one of the two delete passes (the
      listed names, or the prefixed keys collected after the first pass)
      exactly when it is a tracking key. */
  lemma PassesRemoveKey(q: seq<Param>, i: int)
    requires 0 <= i < |q|
    ensures var afterList := DeletedAll(q, TrackingParams);
            q[i].key in Names(TrackingParams) + Names(PrefixedKeys(afterList)) <==> IsTracking(q[i].key)
  {
    var listed := Names(TrackingParams);
    var afterList := DeletedAll(q, TrackingParams);
    DeletedAllIsWithoutKeys(q, TrackingParams);
    var k := q[i].key;
    PrefixedKeysMembers(afterList, k);
    if HasTrackingPrefix(k) && k !in listed {
      WithoutKeysMembers(q, listed, q[i]);
      var j :| 0 <= j < |afterList| && afterList[j] == q[i];
    }
  }

  /** The three passes of script.js:39-52 (delete every listed name, collect
      the prefixed keys that remain, delete those) keep exactly Surviving. */
  lemma RemovalPassesKeepSurvivors(q: seq<Param>)
    ensures var afterList := DeletedAll(q, TrackingParams);
            DeletedAll(afterList, PrefixedKeys(afterList)) == Surviving(q)
  {
    var listed := Names(TrackingParams);
    var afterList := DeletedAll(q, TrackingParams);
    var prefixed := PrefixedKeys(afterList);
    DeletedAllIsWithoutKeys(q, TrackingParams);
    DeletedAllIsWithoutKeys(afterList, prefixed);
    WithoutKeysTwice(q, listed, Names(prefixed));
    forall i | 0 <= i < |q|
      ensures q[i].key in listed + Names(prefixed) <==> IsTracking(q[i].key)
    {
      PassesRemoveKey(q, i);
    }
    WithoutTrackingKeys(q, listed + Names(prefixed));
  }

  // ---------------------------------------------------------------------
  // Properties of what survives

  /** A pair survives exactly when it was in the input and its key is not a
      tracking key. */
  lemma {:induction false} SurvivingMembers(q: seq<Param>, p: Param)
    ensures p in Surviving(q) <==> p in q && !IsTracking(p.key)
  {
    if q != [] {
      SurvivingMembers(q[..|q| - 1], p);
      assert q == q[..|q| - 1] + [q[|q| - 1]];
    }
  }

  /** Every surviving pair occurs as often as in the input; a tracking pair
      not at all. */
  lemma {:induction false} SurvivingCount(q: seq<Param>, p: Param)
    ensures multiset(Surviving(q))[p] == if IsTracking(p.key) then 0 else multiset(q)[p]
  {
    if q != [] {
      var init, last := q[..|q| - 1], q[|q| - 1];
      SurvivingCount(init, p);
      assert q == init + [last];
      if IsTracking(last.key) {
        assert Surviving(q) == Surviving(init);
      } else {
        assert Surviving(q) == Surviving(init) + [last];
      }
    }
  }

  /** Surviving distributes over concatenation: the relative order of the
      kept pairs is the input's. */
  lemma {:induction false} SurvivingAppend(a: seq<Param>, b: seq<Param>)
    ensures Surviving(a + b) == Surviving(a) + Surviving(b)
    decreases |b|
  {
    if b == [] {
      assert a + b == a;
    } else {
      var b' := b[..|b| - 1];
      assert (a + b)[..|a + b| - 1] == a + b';
      SurvivingAppend(a, b');
    }
  }

  /** A list without tracking keys is kept whole. */
  lemma {:induction false} SurvivingOfClean(q: seq<Param>)
    requires forall i :: 0 <= i < |q| ==> !IsTracking(q[i].key)
    ensures Surviving(q) == q
  {
    if q != [] {
      SurvivingOfClean(q[..|q| - 1]);
    }
  }

  /** Removing the tracking pairs a second time removes nothing. */
  lemma SurvivingIdempotent(q: seq<Param>)
    ensures Surviving(Surviving(q)) == Surviving(q)
  {
    SurvivingOfClean(Surviving(q));
  }

  /** The exact-match list removes every listed name and no other: `ref` is
      removed, `ref_src` (neither listed nor prefixed) is kept. */
  lemma ListedKeyExamples()
    ensures IsTracking("ref") && IsTracking("igshid") && IsTracking("fbclid")
    ensures IsTracking("share_medium")
    ensures !IsTracking("ref_src")
  {
    assert "ref_src"[..4][0] == 'r' && "ref_src"[..3][0] == 'r';
    // The empty branches split on the index, so that the verifier unfolds
    // each literal of TrackingParams separately.
    forall i | 0 <= i < |TrackingParams|
      ensures TrackingParams[i] != "ref_src"
    {
      if i < 5 {
        if i == 0 { } else if i == 1 { } else if i == 2 { } else if i == 3 { }
      } else {
        if i == 5 { } else if i == 6 { } else if i == 7 { } else if i == 8 { } else if i == 9 { }
      }
    }
  }

  /** The prefix pass catches unlisted `utm_`, `ig_` and `fb_` keys, and only
      with those exact lower-case prefixes. */
  lemma PrefixKeyExamples()
    ensures IsTracking("utm_id") && IsTracking("ig_rid") && IsTracking("fb_action_ids")
    ensures !IsTracking("UTM_source") && !IsTracking("Ig_rid") && !IsTracking("utm")
  {
    assert "Ig_rid"[..4][0] == 'I' && "Ig_rid"[..3][0] == 'I';
    assert "UTM_source"[..4][0] == 'U' && "UTM_source"[..3][0] == 'U';
    // The empty branches split on the index, so that the verifier unfolds
    // each literal of TrackingParams separately.
    forall i | 0 <= i < |TrackingParams|
      ensures TrackingParams[i] !in ["UTM_source", "Ig_rid", "utm"]
    {
      if i < 5 {
        if i == 0 { } else if i == 1 { } else if i == 2 { } else if i == 3 { }
      } else {
        if i == 5 { } else if i == 6 { } else if i == 7 { } else if i == 8 { } else if i == 9 { }
      }
    }
  }

  // ---------------------------------------------------------------------
  // Normalisation, host test and rebuilding

  /** The parsed string starts with a web scheme. It is the trimmed input
      itself when that already starts with `http://` or `https://`, and
      `https://` followed by the trimmed input otherwise. */
  lemma NormalizeShape(input: string)
    ensures StartsWith(Normalize(input), "http://") || StartsWith(Normalize(input), "https://")
    ensures StartsWith(Trim(input), "http://") || StartsWith(Trim(input), "https://")
            ==> Normalize(input) == Trim(input)
    ensures !StartsWith(Trim(input), "http://") && !StartsWith(Trim(input), "https://")
            ==> Normalize(input) == "https://" + Trim(input)
  {
  }

  /** The host test accepts a host name when `instagram.com` or `instagr.am`
      occurs anywhere in its lower-cased form, not only at its end. */
  lemma IsInstagramHostIff(hostname: string)
    ensures IsInstagramHost(hostname) <==>
      exists i :: 0 <= i <= |hostname| &&
        (StartsWith(ToLower(hostname)[i..], "instagram.com") || StartsWith(ToLower(hostname)[i..], "instagr.am"))
  {
    ContainsIffOccurs(ToLower(hostname), "instagram.com");
    ContainsIffOccurs(ToLower(hostname), "instagr.am");
  }

  /** Substring, not suffix: a host name that merely contains
      `instagram.com` passes the test. */
  lemma HostSubstringExample()
    ensures IsInstagramHost("instagram.com.example.net")
  {
    var h := "instagram.com.example.net";
    assert ToLower(h) == h;
    assert StartsWith(h[0..], "instagram.com");
    ContainsIffOccurs(h, "instagram.com");
  }

  /** The test ignores ASCII case. */
  lemma HostCaseExample()
    ensures IsInstagramHost("WWW.INSTAGR.AM")
  {
    var h := "www.instagr.am";
    assert ToLower("WWW.INSTAGR.AM") == h;
    assert StartsWith(h[4..], "instagr.am");
    ContainsIffOccurs(h, "instagr.am");
  }

  /** A host name containing neither string fails the test. */
  lemma HostRejectExample()
    ensures !IsInstagramHost("x.com")
  {
    ShorterDoesNotContain(ToLower("x.com"), "instagram.com");
    ShorterDoesNotContain(ToLower("x.com"), "instagr.am");
  }

  /** WithTrailingSlash ends in `/`, extends its argument by at most that `/`,
      and changes nothing when applied again. */
  lemma WithTrailingSlashShape(s: string)
    ensures EndsWith(WithTrailingSlash(s), "/")
    ensures WithTrailingSlash(s) == s || WithTrailingSlash(s) == s + "/"
    ensures EndsWith(s, "/") <==> WithTrailingSlash(s) == s
    ensures WithTrailingSlash(WithTrailingSlash(s)) == WithTrailingSlash(s)
  {
  }

  /** The rebuilt URL starts with origin and path. It is their base with a
      trailing `/` when no pair is kept, and that base, `?` and the
      serialized kept query otherwise. When neither origin nor path contains
      `?` (as for a parsed URL), the URL contains `?` exactly when some pair
      is kept. */
  lemma RebuildShape(origin: string, pathname: string, kept: seq<Param>)
    ensures StartsWith(Rebuild(origin, pathname, kept), origin + pathname)
    ensures var base := WithTrailingSlash(origin + pathname);
      && EndsWith(base, "/")
      && Rebuild(origin, pathname, kept)
         == (if kept == [] then base else base + "?" + SerializeQuery(kept))
    ensures '?' !in origin + pathname ==>
      && '?' !in WithTrailingSlash(origin + pathname)
      && ('?' in Rebuild(origin, pathname, kept) <==> kept != [])
  {
  }

  // ---------------------------------------------------------------------
  // The function as a whole

  /** The three outcomes, each exactly characterised: the format error when
      the normalised input does not parse, the host error when the host test
      fails, and otherwise the URL rebuilt from the surviving pairs. */
  lemma CleanOutcomes(parse: string -> Option<ParsedUrl>, input: string)
    ensures Clean(parse, input) == Failure(InvalidUrlFormat) <==> parse(Normalize(input)).None?
    ensures Clean(parse, input) == Failure(NotInstagramUrl) <==>
      parse(Normalize(input)).Some? && !IsInstagramHost(parse(Normalize(input)).value.hostname)
    ensures Clean(parse, input).Success? <==>
      parse(Normalize(input)).Some? && IsInstagramHost(parse(Normalize(input)).value.hostname)
  {
  }

  /** On success, no tracking key is left in the rebuilt query, every other
      pair is left with its value and multiplicity, and the URL is origin and
      path with a trailing `/`, followed by `?` and the query when a pair is
      left. When origin and path hold no `?` (true of any parsed URL), the
      URL contains `?` exactly when a pair is left. */
  lemma CleanSuccess(parse: string -> Option<ParsedUrl>, input: string, url: ParsedUrl, p: Param)
    requires parse(Normalize(input)) == Some(url)
    requires IsInstagramHost(url.hostname)
    ensures Clean(parse, input).Success?
    ensures var kept := Surviving(url.query);
            var base := WithTrailingSlash(url.origin + url.pathname);
            && StartsWith(base, url.origin + url.pathname) && EndsWith(base, "/")
            && (forall i :: 0 <= i < |kept| ==> !IsTracking(kept[i].key))
            && (p in kept <==> p in url.query && !IsTracking(p.key))
            && multiset(kept)[p] == (if IsTracking(p.key) then 0 else multiset(url.query)[p])
            && ('?' !in url.origin + url.pathname ==> ('?' in Clean(parse, input).value <==> kept != []))
            && Clean(parse, input).value == (if kept == [] then base else base + "?" + SerializeQuery(kept))
  {
    RebuildShape(url.origin, url.pathname, Surviving(url.query));
    SurvivingMembers(url.query, p);
    SurvivingCount(url.query, p);
    var s := url.origin + url.pathname;
    WithTrailingSlashShape(s);
    assert WithTrailingSlash(s)[..|s|] == s;
  }

  /** A string with a web scheme and no trailing white space is left alone
      by normalisation. */
  lemma NormalizeSchemed(s: string)
    requires StartsWith(s, "http://") || StartsWith(s, "https://")
    requires !IsWhiteSpace(s[|s| - 1])
    ensures Normalize(s) == s
  {
    assert s[0] == 'h';
    TrimOfTrimmed(s);
  }

  /** A rebuilt URL ends in `/` or in a character of the serialized query,
      never in white space. */
  lemma RebuildEndsPlain(origin: string, pathname: string, kept: seq<Param>)
    ensures var out := Rebuild(origin, pathname, kept);
            out != [] && !IsWhiteSpace(out[|out| - 1])
  {
    var base := WithTrailingSlash(origin + pathname);
    var qs := SerializeQuery(kept);
    if qs != "" {
      var out := base + "?" + qs;
      assert out[|out| - 1] == qs[|qs| - 1];
      QueryCharIsPlain(qs[|qs| - 1]);
    } else {
      assert base[|base| - 1..][0] == '/';
    }
  }

  /** A rebuilt URL whose origin has a web scheme is left alone by
      normalisation: it has no white space at either end and already starts
      with `http://` or `https://`. */
  lemma RebuiltIsNormal(origin: string, pathname: string, kept: seq<Param>)
    requires StartsWith(origin, "http://") || StartsWith(origin, "https://")
    ensures Normalize(Rebuild(origin, pathname, kept)) == Rebuild(origin, pathname, kept)
  {
    var out := Rebuild(origin, pathname, kept);
    RebuildShape(origin, pathname, kept);
    StartsWithTransitive(origin + pathname, origin, origin);
    assert StartsWith(origin + pathname, origin);
    if StartsWith(origin, "http://") {
      StartsWithTransitive(origin + pathname, origin, "http://");
      StartsWithTransitive(out, origin + pathname, "http://");
    } else {
      StartsWithTransitive(origin + pathname, origin, "https://");
      StartsWithTransitive(out, origin + pathname, "https://");
    }
    RebuildEndsPlain(origin, pathname, kept);
    NormalizeSchemed(out);
  }

  /** Rebuilding from an origin and path that already end in the `/` the
      first rebuild added gives the same URL. */
  lemma RebuildStable(origin: string, pathname: string, origin': string, pathname': string, kept: seq<Param>)
    requires origin' + pathname' == WithTrailingSlash(origin + pathname)
    ensures Rebuild(origin', pathname', kept) == Rebuild(origin, pathname, kept)
  {
    WithTrailingSlashShape(origin + pathname);
  }

  /** Idempotence. Cleaning the cleaned URL again gives the same URL, provided
      the parser reads the cleaned URL back as the same host, the same origin
      and path (with its trailing `/`) and the same surviving pairs, and the
      origin starts with a web scheme, as the origin of an `http:` or
      `https:` URL does. */
  lemma CleanIdempotent(parse: string -> Option<ParsedUrl>, input: string, url: ParsedUrl, again: ParsedUrl)
    requires parse(Normalize(input)) == Some(url)
    requires IsInstagramHost(url.hostname)
    requires StartsWith(url.origin, "http://") || StartsWith(url.origin, "https://")
    requires parse(Rebuild(url.origin, url.pathname, Surviving(url.query))) == Some(again)
    requires again.hostname == url.hostname
    requires again.origin + again.pathname == WithTrailingSlash(url.origin + url.pathname)
    requires again.query == Surviving(url.query)
    ensures Clean(parse, input).Success?
    ensures Clean(parse, Clean(parse, input).value) == Clean(parse, input)
  {
    var kept := Surviving(url.query);
    var out := Rebuild(url.origin, url.pathname, kept);
    assert Clean(parse, input) == Success(out);
    RebuiltIsNormal(url.origin, url.pathname, kept);
    SurvivingIdempotent(url.query);
    RebuildStable(url.origin, url.pathname, again.origin, again.pathname, kept);
    assert Clean(parse, out) == Success(Rebuild(again.origin, again.pathname, Surviving(again.query)));
  }

  /** A worked case of the scheme rule and both removal passes: a bare,
      space-padded short link loses its listed `igsh` pair and its prefixed
      `utm_x` pair and gains a scheme and a trailing `/`. */
  lemma BareLinkExample(parse: string -> Option<ParsedUrl>)
    requires parse("https://instagr.am/p/a?igsh=1&utm_x=2") ==
      Some(ParsedUrl("https://instagr.am", "instagr.am", "/p/a",
                     [Param("igsh", "1"), Param("utm_x", "2")]))
    ensures Clean(parse, " instagr.am/p/a?igsh=1&utm_x=2") == Success("https://instagr.am/p/a/")
  {
    BareLinkNormalized();
    ShortHostAccepted();
    BareLinkSurvivors();
    BareLinkRebuilt();
  }

  /** The example input, trimmed and given its scheme. */
  lemma BareLinkNormalized()
    ensures Normalize(" instagr.am/p/a?igsh=1&utm_x=2") == "https://instagr.am/p/a?igsh=1&utm_x=2"
  {
    var t := "instagr.am/p/a?igsh=1&utm_x=2";
    assert " instagr.am/p/a?igsh=1&utm_x=2" == " " + t + "";
    assert "https://" + t == "https://instagr.am/p/a?igsh=1&utm_x=2";
    BareLinkUnpadded();
    NormalizePadded(" ", t, "");
  }

  /** A link without a web scheme, padded with white space on either side,
      becomes the link without its padding behind `https://`. */
  lemma NormalizePadded(pad: string, t: string, pad': string)
    requires AllWhiteSpace(pad) && AllWhiteSpace(pad')
    requires t != [] && !IsWhiteSpace(t[0]) && !IsWhiteSpace(t[|t| - 1])
    requires !StartsWith(t, "http://") && !StartsWith(t, "https://")
    ensures Normalize(pad + t + pad') == "https://" + t
  {
    TrimPadded(pad, t, pad');
  }

  /** The example link has no white space at its ends and no web scheme. */
  lemma BareLinkUnpadded()
    ensures var t := "instagr.am/p/a?igsh=1&utm_x=2";
      && t != [] && !IsWhiteSpace(t[0]) && !IsWhiteSpace(t[|t| - 1])
      && !StartsWith(t, "http://") && !StartsWith(t, "https://")
  {
    var t := "instagr.am/p/a?igsh=1&utm_x=2";
    assert t[0] == 'i' && t[|t| - 1] == '2';
    assert t[..7][0] == 'i' && t[..8][0] == 'i';
  }

  /** The short host passes the host test. */
  lemma ShortHostAccepted()
    ensures IsInstagramHost("instagr.am")
  {
    var h := "instagr.am";
    assert ToLower(h) == h;
    assert StartsWith(h[0..], h);
    ContainsIffOccurs(h, h);
  }

  /** Both pairs of the example are tracking pairs. */
  lemma BareLinkSurvivors()
    ensures Surviving([Param("igsh", "1"), Param("utm_x", "2")]) == []
  {
    var q := [Param("igsh", "1"), Param("utm_x", "2")];
    assert q[..1] == [Param("igsh", "1")];
    assert "utm_x"[..4] == "utm_";
    assert IsTracking("igsh") && IsTracking("utm_x");
  }

  /** The example's origin and path, with the `/` added and no query. */
  lemma BareLinkRebuilt()
    ensures Rebuild("https://instagr.am", "/p/a", []) == "https://instagr.am/p/a/"
  {
    var s := "https://instagr.am" + "/p/a";
    assert s[|s| - 1] == 'a';
    assert !EndsWith(s, "/");
  }
}
