# Instagram link cleaner, modelled in Dafny

The system takes a link pasted by a user and returns it without its
tracking parameters. The core is `cleanInstagramUrl` and the exact-match list
`TRACKING_PARAMS` in `script.js`. The function works in five steps:

1. It trims the input. It puts `https://` in front unless the input already
   starts with `http://` or `https://`.
2. It parses the string with `new URL`. On failure it throws
   "Invalid URL format".
3. It lower-cases the host name. It throws "Not an Instagram URL" unless the
   host name contains `instagram.com` or `instagr.am`.
4. It deletes every query pair whose key is in `TRACKING_PARAMS`. Then it
   collects the remaining keys that start with `utm_`, `ig_` or `fb_`, and
   deletes those.
5. It returns origin and path with a `/` forced at the end. A `?` and the
   remaining query follow only when the query serializes to a non-empty
   string.

The project has three modules:

- `Text` (text.dfy): the JavaScript string operations the function uses,
  namely `trim`, `startsWith`, `endsWith`, `includes` and `toLowerCase`.
- `Url` (url.dfy): the parts of the WHATWG URL Standard the function relies
  on. A parsed URL is a `ParsedUrl` record holding origin, host name, path
  and the ordered query pairs. `SearchParams` is a class whose `list` field
  the `delete` method rewrites in place (section 6.2 of the URL Standard).
  `SerializeQuery` is `toString`, the application/x-www-form-urlencoded
  serializer of section 5.2.
- `Cleaner` (cleaner.dfy): `TRACKING_PARAMS`, the prefix test, and the
  function itself. `CleanInstagramUrl` is the step-by-step method.
  `Clean` is the specification function that the method is proved equal to.
  `Surviving` is a one-pass reference filter. It is proved to keep exactly
  what the two delete passes and the collecting pass between them keep.

The URL parser is not modelled. `Clean` and `CleanInstagramUrl` take it as a
parameter `parse: string -> Option<ParsedUrl>`, where `None` stands for the
parser throwing. The two errors are the `CleanError` values `InvalidUrlFormat`
and `NotInstagramUrl`, and `Message` gives their texts.

## Model

| member | source | states |
|---|---|---|
| `Cleaner.CleanInstagramUrl` | script.js:17-68 | The method that trims, normalises, parses, checks the host, runs the two delete passes and the collecting pass on a `SearchParams` object and rebuilds the string returns exactly `Clean(parse, input)`. |
| `Cleaner.CollectPrefixedKeys` | script.js:44-49 | The loop over the live pairs pushes, in order and once per pair, exactly the keys with a tracking prefix. |
| `Url.SearchParams.Delete` | script.js:40 | `delete(name)` leaves the list with every pair whose key is `name` removed and the rest in order. |
| `Url.DeletedAll` | script.js:39-41 | Deleting each name of a list in turn; the `forEach` of deletes at script.js:39-41 and again at script.js:50-52. `DeletedAllIsWithoutKeys` states that it is one filter by the set of those names. |
| `Url.SearchParams.DeleteEach` | script.js:39-41 | Deleting each name of a list in turn leaves `DeletedAll(old list, names)`. |
| `Url.SearchParams.ToString` | script.js:63-64 | The serialization is empty exactly when no pair is left. |
| `Url.Deleted` | script.js:40 | No pair with the deleted key remains, and the list does not grow. |
| `Url.DeletedIsWithoutKey` | script.js:40 | Deleting one name equals filtering by the set holding just that name. |
| `Url.DeletedAppend` | script.js:40 | Deletion distributes over concatenation, so the relative order of the kept pairs is unchanged. |
| `Url.WithoutKeysMembers` | script.js:39-41 | A pair survives a filter by a key set exactly when it was present and its key is not in the set. |
| `Url.DeletedAllIsWithoutKeys` | script.js:39-41 | Deleting a list of names one after the other equals filtering once by the set of those names, whatever their order or repetitions. |
| `Url.WithoutKeysTwice` | script.js:39-52 | Filtering by one key set and then another equals filtering by their union. |
| `Url.SerializeQuery` | script.js:63-64 | The serialized query is empty exactly when the list is empty. Every character is an unreserved character or one of `+ % = &`. |
| `Url.SerializePair` | script.js:64 | A serialized pair is non-empty and uses only query characters other than `&`. |
| `Url.IsUnreserved` | script.js:64 | The characters the urlencoded serializer writes unchanged: ASCII alphanumerics and `*`, `-`, `.`, `_`. |
| `Url.IsQueryChar` | script.js:64 | The characters a serialized query can hold: the unreserved ones and `+ % = &`. |
| `Url.HexDigit` | script.js:64 | A hexadecimal digit of a percent-encoded byte is an upper-case hex character, hence unreserved. |
| `Url.EncodeChar` | script.js:64 | One encoded character is non-empty and uses only unreserved characters, `+` and `%`. |
| `Url.PercentEncode` | script.js:64 | Three characters per byte, from the unreserved characters and `%` only. |
| `Url.Utf8` | script.js:64 | One to four bytes, each below 256. A single byte exactly for a code point below 128, and then the code point itself. |
| `Url.Encode` | script.js:64 | A serialized name or value uses only unreserved characters, `+` and `%`. |
| `Url.QueryCharIsPlain` | script.js:63-64 | No character of a serialized query is white space or `?`. |
| `Cleaner.Surviving` | script.js:38-52 | The reference filter keeps no tracking key and never grows the list. |
| `Cleaner.PrefixedKeys` | script.js:44-49 | Every collected key has a tracking prefix. |
| `Cleaner.PrefixedKeysMembers` | script.js:44-49 | A key is collected exactly when it has a tracking prefix and occurs in the list. |
| `Cleaner.WithoutTrackingKeys` | script.js:39-52 | Filtering by a key set that agrees with the tracking test on every key present gives `Surviving`. |
| `Cleaner.PassesRemoveKey` | script.js:39-52 | A key of the list is deleted by the name pass or by the collected-prefix pass exactly when it is a listed name or has a tracking prefix. |
| `Cleaner.RemovalPassesKeepSurvivors` | script.js:39-52 | The three passes keep exactly `Surviving(q)`: delete the listed names, collect the prefixed keys that remain, delete those. |
| `Cleaner.SurvivingMembers` | script.js:39-52 | A pair survives exactly when it was in the input and its key is neither listed nor prefixed. |
| `Cleaner.SurvivingCount` | script.js:39-52 | Each surviving pair keeps its multiplicity, repeats included. A tracking pair occurs zero times. |
| `Cleaner.SurvivingAppend` | script.js:39-52 | The filter distributes over concatenation, so surviving pairs keep their relative order. |
| `Cleaner.SurvivingOfClean` | script.js:39-52 | A list with no tracking key is kept whole. |
| `Cleaner.SurvivingIdempotent` | script.js:39-52 | Filtering a second time removes nothing. |
| `Cleaner.HasTrackingPrefix` | script.js:46 | The case-sensitive prefix test. `PrefixKeyExamples` pins its edge cases, and `PrefixedKeys` and `PrefixedKeysMembers` state what the pass collects with it. |
| `Cleaner.IsTracking` | script.js:2-14 | A key in `TrackingParams` (the eleven names of `TRACKING_PARAMS`) or with a tracking prefix. `SurvivingMembers` states that exactly the pairs without such a key survive, and `ListedKeyExamples` that the list is matched exactly. |
| `Cleaner.ListedKeyExamples` | script.js:2-14 | Listed names such as `ref`, `igshid`, `fbclid` and `share_medium` are removed. `ref_src` is not: the match is exact. |
| `Cleaner.PrefixKeyExamples` | script.js:46 | Unlisted `utm_`, `ig_` and `fb_` keys are removed. `UTM_source`, `Ig_rid` and `utm` are not: the prefix test is case-sensitive. |
| `Cleaner.NormalizeShape` | script.js:22-25 | The parsed string always starts with `http://` or `https://`. It is the trimmed input when that already has one of these schemes, and `https://` plus the trimmed input otherwise. |
| `Cleaner.NormalizePadded` | script.js:22-25 | A link without a web scheme and without white space at its ends, padded on either side by any white space, becomes that link behind `https://`. |
| `Cleaner.Normalize` | script.js:22-25 | The parsed string starts with `http://` or `https://`, and is the trimmed input, with or without `https://` in front. |
| `Cleaner.NormalizeSchemed` | script.js:22-25 | A string with a web scheme and no trailing white space is left unchanged. |
| `Cleaner.IsInstagramHost` | script.js:33-34 | The host test on the lower-cased host name. `IsInstagramHostIff` states it as substring occurrence, and the three host examples pin its edge cases. |
| `Cleaner.IsInstagramHostIff` | script.js:33-34 | The host test holds exactly when `instagram.com` or `instagr.am` occurs at some offset of the lower-cased host name. |
| `Cleaner.HostSubstringExample` | script.js:34 | `instagram.com.example.net` passes: it is a substring test, not a suffix test. |
| `Cleaner.HostCaseExample` | script.js:33-34 | `WWW.INSTAGR.AM` passes: the host name is lower-cased first. |
| `Cleaner.HostRejectExample` | script.js:34-35 | `x.com` fails the host test. |
| `Cleaner.WithTrailingSlashShape` | script.js:57-60 | The base ends in `/`. It is the original or the original plus `/`, unchanged exactly when it already ended in `/`, and the step is idempotent. |
| `Cleaner.RebuildShape` | script.js:55-65 | The result starts with origin plus path. It is the base ending in `/` when no pair is left, and the base, `?` and the serialized query otherwise. When origin and path hold no `?`, the result contains `?` exactly when a pair is left. |
| `Cleaner.Rebuild` | script.js:55-65 | The rebuilt URL starts with origin plus path. |
| `Cleaner.WithTrailingSlash` | script.js:57-60 | The result ends in `/`, and is the original or the original plus `/`. |
| `Cleaner.RebuildEndsPlain` | script.js:55-65 | A rebuilt URL is non-empty and does not end in white space. |
| `Cleaner.RebuildStable` | script.js:55-60 | Rebuilding from an origin and path that already carry the added `/` gives the same URL. |
| `Cleaner.RebuiltIsNormal` | script.js:22-25 | Normalisation leaves a rebuilt URL with a web-scheme origin unchanged. |
| `Cleaner.Message` | script.js:29-35 | The texts of the two thrown errors: "Invalid URL format" (script.js:29) and "Not an Instagram URL" (script.js:35). |
| `Cleaner.CleanOutcomes` | script.js:27-36 | The function fails with "Invalid URL format" exactly when parsing fails, and with "Not an Instagram URL" exactly when parsing succeeds and the host test fails. Otherwise it succeeds. |
| `Cleaner.CleanSuccess` | script.js:38-67 | Whenever parsing succeeds and the host test passes, the result is a success. No tracking key is left. Every other pair is kept with its value and multiplicity. The URL is origin and path with a trailing `/`, followed by `?` and the serialized query when a pair is left. When origin and path contain no `?` (true of any parsed URL), the URL contains `?` exactly when a pair is left. |
| `Cleaner.Clean` | script.js:17-68 | The specification function of the whole operation. Its outcomes are stated by `CleanOutcomes`, its successful result by `CleanSuccess`, and its idempotence by `CleanIdempotent`. |
| `Cleaner.CleanIdempotent` | script.js:17-68 | Cleaning the cleaned URL gives the same URL. This assumes the parser reads the output back as the same host, origin and path, and pairs, and that the origin has a web scheme. |
| `Cleaner.BareLinkExample` | script.js:17-68 | ` instagr.am/p/a?igsh=1&utm_x=2` cleans to `https://instagr.am/p/a/`. |
| `Cleaner.BareLinkNormalized` | script.js:22-25 | The example input normalises to `https://instagr.am/p/a?igsh=1&utm_x=2`. |
| `Cleaner.BareLinkUnpadded` | script.js:22-25 | The example link has no white space at its ends and neither web scheme. |
| `Cleaner.ShortHostAccepted` | script.js:33-34 | The example host `instagr.am` passes the host test. |
| `Cleaner.BareLinkRebuilt` | script.js:55-65 | The example's origin and path get the added `/` and no `?`. |
| `Cleaner.BareLinkSurvivors` | script.js:39-52 | Neither pair of the example survives. |
| `Text.IsWhiteSpace` | script.js:22 | The characters `trim` removes: the ECMAScript WhiteSpace code points (tab, vertical tab, form feed, space, no-break space, byte order mark, the Space_Separator category) and the LineTerminator code points. |
| `Text.TrimStart` | script.js:22 | Only leading white space is dropped, and what is left does not start with white space. |
| `Text.TrimEnd` | script.js:22 | Only trailing white space is dropped, and what is left does not end with white space. |
| `Text.Trim` | script.js:22 | The trimmed string is no longer than the input and neither starts nor ends with white space. |
| `Text.TrimStartPadded` | script.js:22 | Leading `trim` removes exactly a white-space prefix in front of a string that does not start with white space. |
| `Text.TrimEndPadded` | script.js:22 | Trailing `trim` removes exactly a white-space suffix behind a string that does not end with white space. |
| `Text.TrimPadded` | script.js:22 | `trim` removes exactly the white-space padding around a string with no white space at its ends. |
| `Text.TrimOfTrimmed` | script.js:22 | A string without white space at either end is its own trim. |
| `Text.StartsWith` | script.js:23 | `startsWith`: the string begins with the prefix. `StartsWithTransitive` states that a prefix of a prefix is a prefix. |
| `Text.EndsWith` | script.js:58 | `endsWith`: the string ends with the suffix. `WithTrailingSlashShape` uses it for the `/` rule. |
| `Text.Contains` | script.js:34 | `includes`. `ContainsIffOccurs` and `ShorterDoesNotContain` state what it means. |
| `Text.ContainsIffOccurs` | script.js:34 | `includes` holds exactly when the substring occurs at some offset. |
| `Text.ShorterDoesNotContain` | script.js:34 | A string shorter than the substring does not contain it. |
| `Text.LowerChar` | script.js:33 | One character of `toLowerCase`: the result is never an upper-case letter, and it is a lower-case letter exactly when the argument is a letter of either case. |
| `Text.ToLower` | script.js:33 | Lower-casing keeps the length, lowers each ASCII capital and leaves no capital behind. |

## Left out

- The URL parser (`new URL`) is a parameter, not a model. Its host lower-casing, IDNA processing, path normalisation and percent-decoding are left out. `CleanIdempotent` therefore assumes, as a precondition, that the parser reads the cleaned URL back unchanged.
- `Text.ToLower`: does not model full Unicode case mapping, only ASCII. Host names produced by the URL parser are ASCII already.
- `Text.Trim`: its contract does not state that the result is a contiguous slice of the input. `TrimStart` and `TrimEnd` state this for each half.
- JavaScript strings are UTF-16 and may hold lone surrogates. Dafny strings hold Unicode scalar values, so `Url.Utf8` never sees a surrogate. The URL Standard replaces lone surrogates with U+FFFD before serializing.
- The `url` object whose `searchParams` are edited is not modelled as a whole. Only its query list is an object (`SearchParams`), because the function reads just `origin`, `hostname`, `pathname` and `searchParams` after parsing.
- Parsing of the form-urlencoded query (the inverse of `SerializeQuery`) is not modelled, so there is no decode/encode round-trip lemma.
- Everything in script.js from line 70 on is left out. This covers DOM element lookups, the click and keypress handlers, the empty-input message in the click handler, `showStatus`, the info toggle, the clipboard write with its `execCommand` fallback, and the `setTimeout` reset. It is user-interface glue, I/O and timers.
