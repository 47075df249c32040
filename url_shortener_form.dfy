/**
 * `UrlShortenerForm`: the validation rules of its two fields, the request it builds from
 * them, the link it shows, and the state it steps through on a submission.
 */
module UrlShortenerForm {
  import opened Wrappers
  import opened Text
  import opened ClientTypes
  import UrlService
  import UrlList

  const UrlRequiredMessage: string := "URL is required"
  const UrlPatternMessage: string := "Please enter a valid URL starting with http:// or https://"
  const AliasPatternMessage: string :=
    "Alias must be 3-20 characters (letters, numbers, hyphens, underscores only)"

  /** ASCII case folding, which is what the `i` flag amounts to for these patterns. */
  function LowerAscii(c: char): char
  {
    if 'A' <= c <= 'Z' then (c as int + 32) as char else c
  }

  /** Whether `s` starts with the lower-case ASCII `prefix`, ignoring case. */
  predicate StartsWithIgnoringCase(s: string, prefix: string)
  {
    |prefix| <= |s| && forall k :: 0 <= k < |prefix| ==> LowerAscii(s[k]) == prefix[k]
  }

  /**
   * `/^https?:\/\/.+/i`: a scheme of `http` or `https` in any case, `://`, then at least one
   * char the regular-expression `.` matches. Nothing is required of the rest.
   */
  predicate UrlPatternMatches(s: string)
  {
    || (StartsWithIgnoringCase(s, "http://") && |s| > 7 && !IsLineTerminator(s[7]))
    || (StartsWithIgnoringCase(s, "https://") && |s| > 8 && !IsLineTerminator(s[8]))
  }

  /** A char of `[a-zA-Z0-9_-]`. */
  predicate IsAliasChar(c: char)
  {
    ('a' <= c <= 'z') || ('A' <= c <= 'Z') || ('0' <= c <= '9') || c == '_' || c == '-'
  }

  /** `/^[a-zA-Z0-9_-]{3,20}$/`. */
  predicate AliasPatternMatches(s: string)
  {
    3 <= |s| <= 20 && forall k :: 0 <= k < |s| ==> IsAliasChar(s[k])
  }

  /** The `url` field's error: `required` rejects only the empty value, then the pattern applies. */
  function UrlFieldError(url: string): (r: Option<string>)
    ensures r.None? <==> url != "" && UrlPatternMatches(url)
    ensures r.Some? ==> r.value in {UrlRequiredMessage, UrlPatternMessage}
  {
    if url == "" then Some(UrlRequiredMessage)
    else if !UrlPatternMatches(url) then Some(UrlPatternMessage)
    else None
  }

  /** The `customAlias` field's error: the pattern is not applied to an empty value. */
  function AliasFieldError(alias: string): (r: Option<string>)
    ensures r.None? <==> alias == "" || AliasPatternMatches(alias)
    ensures r.Some? ==> r.value == AliasPatternMessage
  {
    if alias != "" && !AliasPatternMatches(alias) then Some(AliasPatternMessage) else None
  }

  /** Whether `handleSubmit` passes the values on to `onSubmit`. */
  predicate FieldsValid(url: string, alias: string)
  {
    UrlFieldError(url).None? && AliasFieldError(alias).None?
  }

  /** The request body `onSubmit` sends. */
  datatype ShortenRequest = ShortenRequest(url: string, customAlias: Option<string>)

  /**
   * `onSubmit`'s request: the URL as typed, and the trimmed alias only when the alias is
   * truthy and its trim is non-empty.
   */
  function BuildShortenRequest(url: string, alias: string): (r: ShortenRequest)
    ensures r.url == url
    ensures r.customAlias.Some? <==> JsTrim(alias) != ""
    ensures r.customAlias.Some? ==> r.customAlias.value == JsTrim(alias)
  {
    if alias != "" && JsTrim(alias) != "" then ShortenRequest(url, Some(JsTrim(alias)))
    else ShortenRequest(url, None)
  }

  /** The backend's request object for the body the form sends. */
  function ToServerDto(r: ShortenRequest): UrlService.UrlDto
  {
    UrlService.UrlDto(None, r.url, None, r.customAlias, 0, None, None)
  }

  /**
   * An alias that passed validation is sent as typed, and the service takes its custom path
   * with exactly that alias; an empty alias is left out and the service generates a code.
   */
  lemma ValidAliasReachesService(url: string, alias: string)
    requires AliasFieldError(alias).None?
    ensures alias != "" ==> BuildShortenRequest(url, alias).customAlias == Some(alias)
    ensures UrlService.ChosenAlias(ToServerDto(BuildShortenRequest(url, alias)).customAlias)
      == (if alias == "" then None else Some(alias))
  {
    if alias != "" {
      assert !IsJsWhitespace(alias[0]) && !IsJsWhitespace(alias[|alias| - 1]) by {
        assert IsAliasChar(alias[0]) && IsAliasChar(alias[|alias| - 1]);
      }
      JsTrimOfTrimmed(alias);
      assert !UrlService.Text.IsJavaBlank(alias) by {
        assert IsAliasChar(alias[0]);
      }
    }
  }

  /** Every code the backend generates would also pass the form's alias rule. */
  lemma GeneratedCodeIsValidAlias(picks: seq<int>)
    requires UrlService.ValidPicks(picks)
    ensures AliasPatternMatches(UrlService.GeneratedCode(picks))
  {
    UrlService.CharactersAreAlphanumeric();
    var code := UrlService.GeneratedCode(picks);
    forall k | 0 <= k < |code| ensures IsAliasChar(code[k]) {
      assert code[k] == UrlService.Characters[picks[k]];
    }
  }

  /** Examples of the URL rule: scheme case is ignored; the char after `://` must exist and not end a line. */
  lemma UrlPatternExamples()
    ensures UrlFieldError("HTTPS://x").None?
    ensures UrlFieldError("http://") == Some(UrlPatternMessage)
    ensures UrlFieldError("http://\nx") == Some(UrlPatternMessage)
    ensures UrlFieldError("ftp://x") == Some(UrlPatternMessage)
    ensures UrlFieldError("") == Some(UrlRequiredMessage)
  {
    assert !StartsWithIgnoringCase("ftp://x", "http://") by { assert LowerAscii('f') != 'h'; }
    assert !StartsWithIgnoringCase("ftp://x", "https://") by { assert LowerAscii('f') != 'h'; }
    assert !StartsWithIgnoringCase("http://\nx", "https://") by {
      assert LowerAscii("http://\nx"[4]) != "https://"[4];
    }
    assert !StartsWithIgnoringCase("http://", "https://");
  }

  /** The link shown and copied: the page's origin, a slash, the short code. */
  function ShortLink(origin: string, code: string): (r: string)
    ensures |r| == |origin| + 1 + |code|
    ensures r[..|origin|] == origin && r[|origin|] == '/' && r[|origin| + 1..] == code
  {
    origin + "/" + code
  }

  /** The component's state: the two field values and what it has done so far. */
  class ShortenerForm {
    var url: string
    var alias: string
    var isLoading: bool
    /** Every value passed to `setIsLoading`, in order. */
    var loadingHistory: seq<bool>
    /** The `shortenedUrl` state shown below the form. */
    var shortened: Option<UrlList.UrlEntry>
    /** Every request handed to the API. */
    var sent: seq<ShortenRequest>
    /** Every call of `onUrlShortened`. */
    var notified: seq<UrlList.UrlEntry>

    constructor ()
      ensures url == "" && alias == "" && !isLoading && shortened == None
      ensures loadingHistory == [] && sent == [] && notified == []
    {
      url, alias, isLoading, loadingHistory, shortened, sent, notified := "", "", false, [], None, [], [];
    }

    /**
     * A submission whose API call ends in `outcome`. Invalid fields stop it before `onSubmit`.
     * Otherwise the request is sent with loading on; success stores the result, resets the
     * fields and notifies the parent once; any other end leaves no result; loading ends off.
     */
    method Submit(outcome: Outcome<UrlList.UrlEntry>)
      modifies this
      ensures !old(FieldsValid(url, alias)) ==>
        url == old(url) && alias == old(alias) && shortened == old(shortened) && isLoading == old(isLoading)
        && loadingHistory == old(loadingHistory) && sent == old(sent) && notified == old(notified)
      ensures old(FieldsValid(url, alias)) ==>
        && sent == old(sent) + [BuildShortenRequest(old(url), old(alias))]
        && loadingHistory == old(loadingHistory) + [true, false]
        && !isLoading
        && (Succeeded(outcome) ==>
              shortened == Some(outcome.response.data) && notified == old(notified) + [outcome.response.data]
              && url == "" && alias == "")
        && (!Succeeded(outcome) ==>
              shortened == None && notified == old(notified) && url == old(url) && alias == old(alias))
    {
      var valid := FieldsValid(url, alias);
      if !valid {
        return;
      }
      var request := BuildShortenRequest(url, alias);
      isLoading := true;
      loadingHistory := loadingHistory + [true];
      shortened := None;
      sent := sent + [request];
      if outcome.Answered? && outcome.response.ApiSuccess? {
        shortened := Some(outcome.response.data);
        url, alias := "", "";
        notified := notified + [outcome.response.data];
      }
      isLoading := false;
      loadingHistory := loadingHistory + [false];
    }
  }
}
