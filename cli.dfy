/**
  Input selection in `main` and the pure part of the pipeline that follows
  it: which command-line argument or interactive answer becomes the URL and
  which the filename, when the run stops early, and what URL and filename
  the generator is then asked for.
 */
module Cli {
  import opened Wrappers
  import opened Text
  import opened Url
  import opened Filename

  /** What `main` hands on: the raw URL text and the optional filename. */
  datatype Request = Request(url: string, filename: Option<string>)

  /** The URL that gets encoded and the name the image is saved under. */
  datatype Job = Job(url: string, filename: string)

  /** `argv` is the whole `sys.argv`, program name first. With at least one
      argument, the first is the URL as given and the second, if present,
      the filename. Without arguments the two answers typed at the prompts
      are used, stripped; a blank URL answer ends the run (None) and a blank
      filename answer means no filename. */
  function SelectRequest(argv: seq<string>, urlAnswer: string, nameAnswer: string): (r: Option<Request>)
    ensures r.None? <==> |argv| <= 1 && AllSpace(urlAnswer)
    ensures |argv| > 1 ==> r.Some? && r.value.url == argv[1]
    ensures |argv| > 2 ==> r.Some? && r.value.filename == Some(argv[2])
    ensures |argv| == 2 ==> r.Some? && r.value.filename.None?
    ensures |argv| <= 1 && r.Some? ==>
      && r.value.url == Strip(urlAnswer) && r.value.url != []
      && (r.value.filename.None? <==> AllSpace(nameAnswer))
      && (r.value.filename.Some? ==> r.value.filename.value == Strip(nameAnswer) && r.value.filename.value != [])
  {
    StripEmptyIffAllSpace(urlAnswer);
    StripEmptyIffAllSpace(nameAnswer);
    if |argv| > 1 then
      Some(Request(argv[1], if |argv| > 2 then Some(argv[2]) else None))
    else
      var url := Strip(urlAnswer);
      if url == [] then None
      else
        var name := Strip(nameAnswer);
        Some(Request(url, if name == [] then None else Some(name)))
  }

  /** Command-line arguments after the second are ignored, and so are the
      prompts whenever there is an argument. */
  lemma ExtraArgumentsIgnored(argv: seq<string>, more: seq<string>, u1: string, n1: string, u2: string, n2: string)
    requires |argv| > 1
    ensures |argv| > 2 ==> SelectRequest(argv + more, u1, n1) == SelectRequest(argv, u2, n2)
    ensures SelectRequest(argv, u1, n1) == SelectRequest(argv, u2, n2)
  {
    if |argv| > 2 {
      assert (argv + more)[1] == argv[1] && (argv + more)[2] == argv[2];
    }
  }

  /** The run goes on without a filename, so the default name is built
      from the clock: one argument only, or a non-blank URL answer and a
      blank filename answer. */
  predicate ReadsClock(argv: seq<string>, urlAnswer: string, nameAnswer: string) {
    |argv| == 2 || (|argv| <= 1 && !AllSpace(urlAnswer) && AllSpace(nameAnswer))
  }

  /** The pipeline's pure part: select the input, normalise the URL,
      resolve the filename. A run that does not stop early always yields a
      URL with a recognised scheme and a name ending in `.png`. The clock
      reading matters only when the default name is needed. */
  function Plan(argv: seq<string>, urlAnswer: string, nameAnswer: string, now: Timestamp): (r: Option<Job>)
    requires ReadsClock(argv, urlAnswer, nameAnswer) ==> ValidTimestamp(now)
    ensures r.None? <==> |argv| <= 1 && AllSpace(urlAnswer)
    ensures r.Some? ==> HasScheme(r.value.url) && IsStripped(r.value.url) && HasPngExtension(r.value.filename)
  {
    match SelectRequest(argv, urlAnswer, nameAnswer)
    case None => None
    case Some(req) =>
      ValidateUrlIsStripped(req.url);
      Some(Job(ValidateUrl(req.url), ResolveFilename(req.filename, now)))
  }

  /** Answering the prompts gives the same job as passing the same texts as
      arguments (the filename stripped, or left out when blank). */
  lemma InteractiveMatchesCommandLine(program: string, urlAnswer: string, nameAnswer: string, now: Timestamp)
    requires ValidTimestamp(now)
    requires !AllSpace(urlAnswer)
    ensures AllSpace(nameAnswer) ==>
      Plan([program], urlAnswer, nameAnswer, now) == Plan([program, urlAnswer], "", "", now)
    ensures !AllSpace(nameAnswer) ==>
      Plan([program], urlAnswer, nameAnswer, now) == Plan([program, urlAnswer, Strip(nameAnswer)], "", "", now)
  {
    var asked := SelectRequest([program], urlAnswer, nameAnswer);
    var url := Strip(urlAnswer);
    StripIdempotent(urlAnswer);
    assert ValidateUrl(url) == ValidateUrl(urlAnswer);
    if AllSpace(nameAnswer) {
      var given := SelectRequest([program, urlAnswer], "", "");
      assert asked == Some(Request(url, None));
      assert given == Some(Request(urlAnswer, None));
    } else {
      var given := SelectRequest([program, urlAnswer, Strip(nameAnswer)], "", "");
      assert asked == Some(Request(url, Some(Strip(nameAnswer))));
      assert given == Some(Request(urlAnswer, Some(Strip(nameAnswer))));
    }
  }

  /** An empty URL argument is not rejected: it is encoded as `https://`. */
  lemma EmptyUrlArgumentAccepted(program: string, now: Timestamp)
    requires ValidTimestamp(now)
    ensures Plan([program, ""], "", "", now) == Some(Job("https://", DefaultName(now)))
  {
    BlankUrlBecomesBarePrefix("");
    DefaultNameIsFinal(now);
  }

  /** An empty filename argument is not treated as missing: it becomes `.png`. */
  lemma EmptyFilenameArgument(program: string, url: string, now: Timestamp)
    ensures Plan([program, url, ""], "", "", now) == Some(Job(ValidateUrl(url), ".png"))
  {
  }

  /** `program example.com`: the scheme is added and the default name used. */
  lemma BareHostWithDefaultName(program: string, now: Timestamp)
    requires ValidTimestamp(now)
    ensures Plan([program, "example.com"], "", "", now) == Some(Job("https://example.com", DefaultName(now)))
  {
    assert SelectRequest([program, "example.com"], "", "") == Some(Request("example.com", None));
    BareHostGetsScheme();
    DefaultNameIsFinal(now);
  }

  /** `program https://openai.com mycode`: the URL is kept and `.png` appended to the name. */
  lemma SchemeKeptAndExtensionAdded(program: string, now: Timestamp)
    ensures Plan([program, "https://openai.com", "mycode"], "", "", now) == Some(Job("https://openai.com", "mycode.png"))
  {
    assert SelectRequest([program, "https://openai.com", "mycode"], "", "") == Some(Request("https://openai.com", Some("mycode")));
    SchemeKept();
    MissingExtensionAdded();
  }
}
