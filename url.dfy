/** `validate_url`: the URL normaliser. */
module Url {
  import opened Text

  const Http: string := "http://"
  const Https: string := "https://"

  /** The case-sensitive test `startswith(('http://', 'https://'))`: only
      the lower-case letters `http` followed by `://` or by `s://` pass. */
  predicate HasScheme(s: string): (b: bool)
    ensures b <==> |s| >= 7 && s[..4] == "http"
                   && (s[4..7] == "://" || (|s| >= 8 && s[4..8] == "s://"))
  {
    assert |s| >= 7 ==> s[..7] == s[..4] + s[4..7];
    assert |s| >= 8 ==> s[..8] == s[..4] + s[4..8];
    StartsWith(s, Http) || StartsWith(s, Https)
  }

  /** Strips surrounding whitespace and prepends `https://` unless the
      stripped text already begins with one of the two recognised schemes.
      It never rejects input. */
  function ValidateUrl(raw: string): (url: string)
    ensures HasScheme(url)
    ensures EndsWith(url, Strip(raw))
    ensures url == Strip(raw) || url == Https + Strip(raw)
    ensures url == Strip(raw) <==> HasScheme(Strip(raw))
  {
    var s := Strip(raw);
    if HasScheme(s) then s else Https + s
  }

  /** The normalised URL carries no surrounding whitespace. */
  lemma ValidateUrlIsStripped(raw: string)
    ensures IsStripped(ValidateUrl(raw))
  {
    var s, url := Strip(raw), ValidateUrl(raw);
    if url != s {
      assert url[0] == 'h';
      if s != [] {
        assert url[|url| - 1] == s[|s| - 1];
      }
    }
  }

  /** Normalising twice is the same as normalising once. */
  lemma ValidateUrlIdempotent(raw: string)
    ensures ValidateUrl(ValidateUrl(raw)) == ValidateUrl(raw)
  {
    var url := ValidateUrl(raw);
    ValidateUrlIsStripped(raw);
    StripKeepsStripped(url);
  }

  /** Only the stripped text matters: stripping before normalising, as the
      interactive prompt does, changes nothing. */
  lemma ValidateUrlIgnoresSurroundingSpace(a: string, raw: string, b: string)
    requires AllSpace(a) && AllSpace(b)
    ensures ValidateUrl(a + raw + b) == ValidateUrl(raw)
    ensures ValidateUrl(Strip(raw)) == ValidateUrl(raw)
  {
    StripAbsorbsSpace(a, raw, b);
    StripIdempotent(raw);
  }

  /** Blank input is not rejected: it becomes the bare prefix `https://`. */
  lemma BlankUrlBecomesBarePrefix(raw: string)
    requires AllSpace(raw)
    ensures ValidateUrl(raw) == "https://"
  {
    StripEmptyIffAllSpace(raw);
  }

  /** The scheme test is case-sensitive: an upper-case scheme is not
      recognised, so the result carries `https://` in front of it. */
  lemma UpperCaseSchemeIsPrefixed(rest: string)
    requires IsStripped(rest)
    ensures ValidateUrl("HTTP://" + rest) == "https://HTTP://" + rest
  {
    var s := "HTTP://" + rest;
    UpperCaseSchemeText(rest);
    StripKeepsStripped(s);
    assert Https + s == "https://HTTP://" + rest;
  }

  lemma UpperCaseSchemeText(rest: string)
    requires IsStripped(rest)
    ensures IsStripped("HTTP://" + rest) && !HasScheme("HTTP://" + rest)
  {
    var s := "HTTP://" + rest;
    assert s[0] == 'H';
    if rest == [] {
      assert s[|s| - 1] == '/';
    } else {
      assert s[|s| - 1] == rest[|rest| - 1];
    }
    assert s[..7][0] != Http[0];
    if |s| >= 8 {
      assert s[..8][0] != Https[0];
    }
  }

  /** A bare host name gets the `https://` scheme. */
  lemma BareHostGetsScheme()
    ensures ValidateUrl("example.com") == "https://example.com"
  {
    var s := "example.com";
    assert IsStripped(s) by {
      assert s[0] == 'e' && s[|s| - 1] == 'm';
    }
    StripKeepsStripped(s);
    assert !HasScheme(s) by {
      assert s[..7][0] != Http[0] && s[..8][0] != Https[0];
    }
  }

  /** A URL that already has a scheme is kept as it is. */
  lemma SchemeKept()
    ensures ValidateUrl("https://openai.com") == "https://openai.com"
  {
    var s := "https://openai.com";
    assert IsStripped(s) by {
      assert s[0] == 'h' && s[|s| - 1] == 'm';
    }
    StripKeepsStripped(s);
    assert StartsWith(s, Https) by {
      assert s[..8] == Https;
    }
  }
}
