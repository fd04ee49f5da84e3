/** `extract_from_table` (src/services/llm.py): turn one table image into the
    parsed JSON reply of a vision model. Every stage that touches the outside
    world (opening the image, PNG/base64 encoding, reading the prompt file,
    the remote chat completion, `json.loads`) is an oracle; what is modelled
    is the order of the stages, the `None`-on-failure funnel, and the
    code-fence cleaning of the reply text. */
module Llm {
  import opened Common
  import opened Strings

  const Fence: string := "```"
  const JsonFence: string := "```json"

  /** The model name the request is sent with. */
  const ModelName: string := "gpt-4o"

  // ---------------------------------------------------------------------------
  // Reply cleaning: replace('```json', '').replace('```', '').strip()
  // ---------------------------------------------------------------------------

  /** Number of backticks at the start of `s`. */
  function LeadingTicks(s: string): nat
    decreases |s|
  {
    if |s| > 0 && s[0] == '`' then 1 + LeadingTicks(s[1..]) else 0
  }

  /** At least `k` leading backticks means the first `k` characters are backticks. */
  lemma {:induction false} TicksAtLeast(s: string, k: nat)
    ensures LeadingTicks(s) >= k <==> (k <= |s| && forall j :: 0 <= j < k ==> s[j] == '`')
    decreases k
  {
    if k > 0 && |s| > 0 && s[0] == '`' {
      TicksAtLeast(s[1..], k - 1);
      assert forall j :: 1 <= j < k && j < |s| ==> s[1..][j - 1] == s[j];
    }
  }

  lemma FenceNeedsThreeTicks(s: string)
    ensures StartsWith(s, Fence) <==> LeadingTicks(s) >= 3
  {
    TicksAtLeast(s, 3);
    if |s| >= 3 && s[0] == '`' && s[1] == '`' && s[2] == '`' {
      assert s[..3] == Fence;
    }
  }

  lemma TicksAfterFence(s: string)
    requires StartsWith(s, Fence)
    ensures LeadingTicks(s) == 3 + LeadingTicks(s[3..])
  {
    assert s[0] == '`' && s[1] == '`' && s[2] == '`';
    assert s[1..][1..] == s[2..];
    assert s[2..][1..] == s[3..];
    assert LeadingTicks(s[2..]) == 1 + LeadingTicks(s[3..]);
    assert LeadingTicks(s[1..]) == 1 + LeadingTicks(s[2..]);
    assert LeadingTicks(s) == 1 + LeadingTicks(s[1..]);
  }

  /** Where the string starts with a fence, the fence is dropped. */
  lemma DroppedFence(s: string)
    requires StartsWith(s, Fence)
    ensures ReplaceAll(s, Fence, "") == ReplaceAll(s[3..], Fence, "")
  {
  }

  /** Where the first character is not the start of a fence, it is kept. */
  lemma KeptChar(s: string)
    requires |s| > 0 && !StartsWith(s, Fence)
    ensures ReplaceAll(s, Fence, "") == [s[0]] + ReplaceAll(s[1..], Fence, "")
  {
  }

  lemma TicksOfCons(c: char, t: string)
    ensures LeadingTicks([c] + t) == if c == '`' then 1 + LeadingTicks(t) else 0
  {
    assert ([c] + t)[1..] == t;
  }

  /** Removing every "```" leaves fewer than three leading backticks, and
      keeps a run that was already shorter than three as it is. */
  lemma {:induction false} FenceRemovalTicks(s: string)
    ensures LeadingTicks(ReplaceAll(s, Fence, "")) < 3
    ensures LeadingTicks(s) < 3 ==> LeadingTicks(ReplaceAll(s, Fence, "")) == LeadingTicks(s)
    decreases |s|
  {
    if |s| == 0 {
    } else if StartsWith(s, Fence) {
      FenceRemovalTicks(s[3..]);
      DroppedFence(s);
      FenceNeedsThreeTicks(s);
    } else {
      FenceRemovalTicks(s[1..]);
      KeptChar(s);
      TicksOfCons(s[0], ReplaceAll(s[1..], Fence, ""));
      assert s == [s[0]] + s[1..];
      TicksOfCons(s[0], s[1..]);
      FenceNeedsThreeTicks(s);
    }
  }

  /** Removing every "```" leaves no "```" behind: a run of k backticks
      shrinks to fewer than three backticks, and runs never merge because the
      characters between them are kept. */
  lemma {:induction false} FenceRemovalLeavesNone(s: string)
    ensures !Contains(ReplaceAll(s, Fence, ""), Fence)
    decreases |s|
  {
    var r := ReplaceAll(s, Fence, "");
    if |s| == 0 {
      assert r == [];
      assert !OccursAt(r, Fence, 0);
    } else if StartsWith(s, Fence) {
      FenceRemovalLeavesNone(s[3..]);
      DroppedFence(s);
    } else {
      FenceRemovalLeavesNone(s[1..]);
      FenceRemovalTicks(s);
      var rest := ReplaceAll(s[1..], Fence, "");
      KeptChar(s);
      forall i: nat | OccursAt(r, Fence, i)
        ensures false
      {
        if i == 0 {
          OccursAtZero(r, Fence);
          FenceNeedsThreeTicks(r);
        } else {
          OccursAtShift(s[0], rest, Fence, i - 1);
        }
      }
    }
  }

  /** Python's `reply.replace('```json', '').replace('```', '').strip()`. */
  function Clean(reply: string): (r: string)
    ensures !Contains(r, Fence)
    ensures Trimmed(r)
    ensures |r| <= |reply|
  {
    var unfenced := ReplaceAll(ReplaceAll(reply, JsonFence, ""), Fence, "");
    FenceRemovalLeavesNone(ReplaceAll(reply, JsonFence, ""));
    var r := Strip(unfenced);
    StripKeepsNoFence(unfenced);
    r
  }

  /** A slice of a string without "```" has none either. */
  lemma StripKeepsNoFence(s: string)
    requires !Contains(s, Fence)
    ensures !Contains(Strip(s), Fence)
  {
    var r := Strip(s);
    var i := SpaceRunFrom(s, 0);
    forall j: nat | OccursAt(r, Fence, j)
      ensures false
    {
      OccursInSlice(s, i, i + |r|, Fence, j);
    }
  }

  lemma JsonFenceHasFence(s: string)
    requires !Contains(s, Fence)
    ensures !Contains(s, JsonFence)
  {
    forall i: nat | OccursAt(s, JsonFence, i)
      ensures false
    {
      assert s[i..i + 3] == s[i..i + 7][..3];
      assert OccursAt(s, Fence, i);
    }
  }

  /** A text that has no fence and no edge whitespace is left alone. */
  lemma CleanKeepsBareBody(b: string)
    requires !Contains(b, Fence) && Trimmed(b)
    ensures Clean(b) == b
  {
    JsonFenceHasFence(b);
    ReplaceAbsent(b, JsonFence, "");
    ReplaceAbsent(b, Fence, "");
    StripTrimmed(b);
  }

  /** Cleaning twice is cleaning once. */
  lemma CleanIdempotent(reply: string)
    ensures Clean(Clean(reply)) == Clean(reply)
  {
    CleanKeepsBareBody(Clean(reply));
  }

  /** A reply wrapped in "```json" … "```" on lines of their own. */
  function Fenced(body: string): string {
    JsonFence + "\n" + body + "\n" + Fence
  }

  /** A "```" that starts inside `"\n" + b + "\n"`, even one running on
      into whatever follows, lies inside `b`: every other window would hit
      one of the newlines. */
  lemma FenceInFrameIsInBody(b: string, tail: string, p: string, i: nat)
    requires StartsWith(p, Fence)
    requires i < |b| + 2
    requires OccursAt("\n" + b + "\n" + tail, p, i)
    ensures 1 <= i && OccursAt(b, Fence, i - 1)
  {
    var s := "\n" + b + "\n" + tail;
    var w := s[i..i + |p|];
    assert w == p && p[..3] == Fence;
    assert p[0] == '`' && p[1] == '`' && p[2] == '`';
    assert s[i] == w[0] && s[i + 1] == w[1] && s[i + 2] == w[2];
    assert s[0] == '\n' && s[|b| + 1] == '\n';
    assert i + 2 <= |b|;
    assert b[i - 1] == s[i] && b[i] == s[i + 1] && b[i + 1] == s[i + 2];
    assert b[i - 1..i + 2] == Fence;
  }

  /** Cleaning undoes the fence: wrapping a fence-free, trimmed body in
      "```json\n" ... "\n```" and cleaning it gives the body back. */
  lemma CleanUnwrapsFence(body: string)
    requires !Contains(body, Fence) && Trimmed(body)
    ensures Clean(Fenced(body)) == body
  {
    JsonFenceGoes(body);
    ClosingFenceGoes(body);
    StripPadded("\n", body, "\n");
  }

  /** The first replacement removes only the leading "```json". */
  lemma JsonFenceGoes(body: string)
    requires !Contains(body, Fence)
    ensures ReplaceAll(Fenced(body), JsonFence, "") == "\n" + body + "\n" + Fence
  {
    var frame := "\n" + body + "\n";
    var s := Fenced(body);
    assert StartsWith(s, JsonFence);
    assert s[|JsonFence|..] == frame + Fence;
    forall i: nat | i < |frame|
      ensures !OccursAt(frame + Fence, JsonFence, i)
    {
      if OccursAt(frame + Fence, JsonFence, i) {
        FenceInFrameIsInBody(body, Fence, JsonFence, i);
      }
    }
    ReplaceAfterClearPrefix(frame, Fence, JsonFence, "");
    assert ReplaceAll(Fence, JsonFence, "") == Fence by {
      assert Fence[1..] == "``";
      assert "``"[1..] == "`";
      assert "`"[1..] == "";
    }
  }

  /** The second replacement removes only the closing "```". */
  lemma ClosingFenceGoes(body: string)
    requires !Contains(body, Fence)
    ensures ReplaceAll("\n" + body + "\n" + Fence, Fence, "") == "\n" + body + "\n"
  {
    var frame := "\n" + body + "\n";
    forall i: nat | i < |frame|
      ensures !OccursAt(frame + Fence, Fence, i)
    {
      if OccursAt(frame + Fence, Fence, i) {
        FenceInFrameIsInBody(body, Fence, Fence, i);
      }
    }
    ReplaceAfterClearPrefix(frame, Fence, Fence, "");
    assert ReplaceAll(Fence, Fence, "") == "" by {
      assert StartsWith(Fence, Fence);
      assert Fence[3..] == "";
    }
  }

  // ---------------------------------------------------------------------------
  // The failure funnel of extract_from_table
  // ---------------------------------------------------------------------------

  /** The `img` argument: a path to open, an already opened image, or
      something that is neither. */
  datatype ImageArg<Img> = ImagePath(path: string) | ImageValue(image: Img) | NotAnImage

  /** The single chat-completion request: model name, prompt text and the
      PNG image as a `data:` URL. */
  datatype Request = Request(model: string, prompt: string, imageUrl: string)

  /** What the remote call produced: it raised, or it returned a list of
      choices whose message content may be `None`. */
  datatype Completion = CallRaised | Choices(contents: seq<Option<string>>)

  /** The outside world, as total functions; `None` means the call raised. */
  datatype Oracles<!Img, Json> = Oracles(
    openImage: string -> Option<Img>,
    encodePng: Img -> Option<string>,
    readPrompt: string -> Option<string>,
    complete: Request -> Completion,
    parseJson: string -> Option<Json>)

  /** The value `extract_from_table` returns, plus whether it issued the
      remote request (the one externally visible side effect). */
  datatype Outcome<Json> = Outcome(value: Option<Json>, requested: bool)

  /** The image after the path case has been opened. */
  function OpenedImage<Img, Json>(img: ImageArg<Img>, o: Oracles<Img, Json>): Option<Img> {
    match img
    case ImagePath(p) => o.openImage(p)
    case ImageValue(i) => Some(i)
    case NotAnImage => None
  }

  /** `os.environ.get('OPENAI')` is present and non-empty. */
  predicate HasApiKey(env: map<string, string>) {
    "OPENAI" in env && env["OPENAI"] != ""
  }

  function DataUrl(base64: string): string {
    "data:image/png;base64," + base64
  }

  /** All the stages before the remote call succeed. */
  predicate ReadyToSend<Img, Json>(promptPath: string, img: ImageArg<Img>,
                                   env: map<string, string>, o: Oracles<Img, Json>) {
    && OpenedImage(img, o).Some?
    && HasApiKey(env)
    && o.encodePng(OpenedImage(img, o).value).Some?
    && o.readPrompt(promptPath).Some?
  }

  /** The request sent once every earlier stage succeeded. */
  function RequestFor<Img, Json>(promptPath: string, img: ImageArg<Img>,
                                 env: map<string, string>, o: Oracles<Img, Json>): Request
    requires ReadyToSend(promptPath, img, env, o)
  {
    Request(ModelName, o.readPrompt(promptPath).value,
            DataUrl(o.encodePng(OpenedImage(img, o).value).value))
  }

  /** The text of the first choice, when there is one with content. */
  function FirstContent(c: Completion): Option<string> {
    if c.Choices? && |c.contents| > 0 then c.contents[0] else None
  }

  /** `extract_from_table(prompt_path, img)`. */
  function ExtractFromTable<Img, Json>(promptPath: string, img: ImageArg<Img>,
                                       env: map<string, string>, o: Oracles<Img, Json>): (r: Outcome<Json>)
    ensures r.requested <==> ReadyToSend(promptPath, img, env, o)
    ensures r.value.Some? ==> r.requested
    ensures r.requested ==>
      r.value == (match FirstContent(o.complete(RequestFor(promptPath, img, env, o)))
                  case Some(text) => o.parseJson(Clean(text))
                  case None => None)
  {
    var image := OpenedImage(img, o);
    if image.None? then Outcome(None, false)
    else if !HasApiKey(env) then Outcome(None, false)
    else
      var encoded := o.encodePng(image.value);
      if encoded.None? then Outcome(None, false)
      else
        var prompt := o.readPrompt(promptPath);
        if prompt.None? then Outcome(None, false)
        else
          var reply := o.complete(Request(ModelName, prompt.value, DataUrl(encoded.value)));
          match reply
          case CallRaised => Outcome(None, true)
          case Choices(contents) =>
            if |contents| == 0 then Outcome(None, true)
            else
              match contents[0]
              case None => Outcome(None, true)
              case Some(text) => Outcome(o.parseJson(Clean(text)), true)
  }

  /** A request is issued only for a valid image and a present API key. */
  lemma NoRequestWithoutImageOrKey<Img, Json>(promptPath: string, img: ImageArg<Img>,
                                              env: map<string, string>, o: Oracles<Img, Json>)
    requires OpenedImage(img, o).None? || !HasApiKey(env)
    ensures ExtractFromTable(promptPath, img, env, o) == Outcome(None, false)
  {
  }

  /** A reply wrapped in "```json" … "```" is parsed as its body. */
  lemma FencedReplyIsParsed<Img, Json>(promptPath: string, img: ImageArg<Img>,
                                       env: map<string, string>, o: Oracles<Img, Json>, body: string)
    requires ReadyToSend(promptPath, img, env, o)
    requires !Contains(body, Fence) && Trimmed(body)
    requires FirstContent(o.complete(RequestFor(promptPath, img, env, o))) == Some(Fenced(body))
    ensures ExtractFromTable(promptPath, img, env, o).value == o.parseJson(body)
  {
    CleanUnwrapsFence(body);
  }
}
