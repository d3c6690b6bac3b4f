// The string post-processing of the Gemini helpers (services/geminiService.ts):
// the fallback texts of the two advice calls, the data URL built from the first
// inline-image part of a reply, and the data-URL prefix strip applied before an
// image is sent back for editing. The network replies are inputs.

module GeminiService {
  import opened Types

  /** The prefix every returned image carries. */
  const DataUrlPrefix: string := "data:image/png;base64,"

  const QuickTipEmpty: string := "Stay low, watch the shadows."
  const QuickTipError: string := "Listen to the forest closely."
  const StrategyEmpty: string := "Continue your patient vigil."
  const StrategyError: string := "The forest remains mysterious. Adapt your tactics."

  // ---------------------------------------------------------------- split

  /** The position of the first c in s. */
  function IndexOf(s: string, c: char): (i: nat)
    requires c in s
    ensures i < |s| && s[i] == c && c !in s[..i]
  {
    if s[0] == c then 0
    else
      assert s == [s[0]] + s[1..];
      var j := IndexOf(s[1..], c);
      assert s[..j + 1] == [s[0]] + s[1..][..j];
      j + 1
  }

  /** The parts joined back with commas between them. */
  function Join(parts: seq<string>): string
  {
    if parts == [] then ""
    else if |parts| == 1 then parts[0]
    else parts[0] + [','] + Join(parts[1..])
  }

  /** String.prototype.split(','): the maximal comma-free pieces of s, in order. */
  function Split(s: string): (parts: seq<string>)
    ensures |parts| >= 1
    ensures forall k :: 0 <= k < |parts| ==> ',' !in parts[k]
    ensures Join(parts) == s
    decreases |s|
  {
    if ',' in s then
      var i := IndexOf(s, ',');
      assert s == s[..i] + [','] + s[i + 1..];
      [s[..i]] + Split(s[i + 1..])
    else
      [s]
  }

  /** A comma-free head splits off as the first piece. */
  lemma SplitCons(a: string, t: string)
    requires ',' !in a
    ensures Split(a + [','] + t) == [a] + Split(t)
  {
    var s := a + [','] + t;
    assert s[|a|] == ',';
    assert s[..|a|] == a;
    var i := IndexOf(s, ',');
    assert i == |a|;
    assert s[i + 1..] == t;
  }

  /** Split inverts Join on every list of comma-free pieces. */
  lemma {:induction false} SplitJoin(parts: seq<string>)
    requires |parts| >= 1
    requires forall k :: 0 <= k < |parts| ==> ',' !in parts[k]
    ensures Split(Join(parts)) == parts
  {
    if |parts| > 1 {
      var tail := parts[1..];
      assert forall k :: 0 <= k < |tail| ==> tail[k] == parts[k + 1];
      SplitJoin(tail);
      SplitCons(parts[0], Join(tail));
      assert parts == [parts[0]] + tail;
    }
  }

  // ---------------------------------------------------------------- strip

  /** split(',')[1] || s: the piece after the first comma when there is one and it
      is not empty, and the whole input otherwise. */
  function StripPrefix(s: string): (r: string)
    ensures r == s || (|Split(s)| >= 2 && r == Split(s)[1] && r != "" && ',' !in r)
  {
    var parts := Split(s);
    if |parts| >= 2 && parts[1] != "" then parts[1] else s
  }

  /** A string without a comma passes through unchanged. */
  lemma StripNoComma(s: string)
    requires ',' !in s
    ensures StripPrefix(s) == s
  {
    assert Split(s) == [s];
  }

  /** After a comma-free head and a comma, the next comma-free piece is taken if it
      is not empty; an empty one leaves the whole input. */
  lemma StripSegment(a: string, b: string, rest: string)
    requires ',' !in a && ',' !in b
    ensures b != "" ==> StripPrefix(a + [','] + b) == b
    ensures b != "" ==> StripPrefix(a + [','] + b + [','] + rest) == b
    ensures b == "" ==> StripPrefix(a + [','] + b + [','] + rest) == a + [','] + b + [','] + rest
  {
    SplitCons(a, b);
    StripNoComma(b);
    assert Split(b) == [b];
    SplitCons(b, rest);
    assert a + [','] + b + [','] + rest == a + [','] + (b + [','] + rest);
    SplitCons(a, b + [','] + rest);
  }

  /** "a,,b" keeps its empty second piece out, so it stays "a,,b". */
  lemma StripEmptySecondPiece()
    ensures StripPrefix("a,,b") == "a,,b"
  {
    StripSegment("a", "", "b");
    assert "a" + [','] + "" + [','] + "b" == "a,,b";
  }

  /** The data URL the image calls return for base64 data d. */
  function DataUrl(d: string): (r: string)
    ensures |r| == |DataUrlPrefix| + |d| && r[..|DataUrlPrefix|] == DataUrlPrefix
  {
    DataUrlPrefix + d
  }

  /** An image returned by the service strips back to its base64 data. */
  lemma StripDataUrl(d: string)
    requires d != "" && ',' !in d
    ensures StripPrefix(DataUrl(d)) == d
  {
    var head := "data:image/png;base64";
    assert DataUrl(d) == head + [','] + d;
    StripSegment(head, d, "");
  }

  // ---------------------------------------------------------------- trim

  /** The characters String.prototype.trim removes: the white space and line
      terminators of ECMAScript. */
  predicate IsSpace(c: char)
  {
    || c == '\t' || c == '\n' || c == '\U{B}' || c == '\U{C}' || c == '\r' || c == ' '
    || c == '\U{A0}' || c == '\U{1680}' || ('\U{2000}' <= c <= '\U{200A}')
    || c == '\U{2028}' || c == '\U{2029}' || c == '\U{202F}' || c == '\U{205F}'
    || c == '\U{3000}' || c == '\U{FEFF}'
  }

  predicate AllSpace(s: string)
  {
    forall k :: 0 <= k < |s| ==> IsSpace(s[k])
  }

  /** The length of the white-space run that starts s. */
  function LeadingSpace(s: string): (n: nat)
    ensures n <= |s| && AllSpace(s[..n])
    ensures n == |s| || !IsSpace(s[n])
  {
    if s != [] && IsSpace(s[0]) then
      var m := LeadingSpace(s[1..]);
      assert s[..m + 1] == [s[0]] + s[1..][..m];
      m + 1
    else
      0
  }

  /** Where the white-space run that ends s begins. */
  function TrailingSpace(s: string): (j: nat)
    ensures j <= |s| && AllSpace(s[j..])
    ensures j == 0 || !IsSpace(s[j - 1])
  {
    if s != [] && IsSpace(s[|s| - 1]) then
      var t := s[..|s| - 1];
      var j := TrailingSpace(t);
      assert s[j..] == t[j..] + [s[|s| - 1]];
      j
    else
      0 + |s|
  }

  /** String.prototype.trim: s without its leading and trailing white space. */
  function Trim(s: string): string
  {
    var u := s[LeadingSpace(s)..];
    u[..TrailingSpace(u)]
  }

  /** Trimming leaves a piece of s with white space removed only at its ends, and
      it is empty exactly when s is all white space. */
  lemma TrimFacts(s: string)
    ensures exists i, j :: 0 <= i <= j <= |s| && Trim(s) == s[i..j] && AllSpace(s[..i]) && AllSpace(s[j..])
    ensures Trim(s) == [] || (!IsSpace(Trim(s)[0]) && !IsSpace(Trim(s)[|Trim(s)| - 1]))
    ensures Trim(s) == [] <==> AllSpace(s)
  {
    var i := LeadingSpace(s);
    var u := s[i..];
    var j := TrailingSpace(u);
    assert Trim(s) == s[i..i + j];
    assert s[i + j..] == u[j..];
    if j > 0 {
      assert Trim(s)[0] == s[i];
      assert Trim(s)[|Trim(s)| - 1] == u[j - 1];
    } else {
      AllSpaceJoin(s, i);
    }
  }

  /** A string whose two halves are all white space is all white space. */
  lemma AllSpaceJoin(s: string, i: nat)
    requires i <= |s| && AllSpace(s[..i]) && AllSpace(s[i..])
    ensures AllSpace(s)
  {
    forall k | 0 <= k < |s| ensures IsSpace(s[k]) {
      if k < i {
        assert s[..i][k] == s[k];
      } else {
        assert s[i..][k - i] == s[k];
      }
    }
  }

  /** Trimming twice is trimming once. */
  lemma TrimIdempotent(s: string)
    ensures Trim(Trim(s)) == Trim(s)
  {
    TrimFacts(s);
    var t := Trim(s);
    if t != [] {
      assert LeadingSpace(t) == 0;
      assert t[0..] == t;
      assert TrailingSpace(t) == |t|;
    }
  }

  // ---------------------------------------------------------------- replies

  /** What a text call produced: an error thrown, or a reply whose text may be missing. */
  datatype TextReply = Failed | Answered(text: Option<string>)

  /** getQuickTip's result: the trimmed reply text, the quiet-reply fallback when it
      is missing or trims to nothing, and the error fallback when the call threw. */
  function QuickTip(reply: TextReply): (r: string)
    ensures reply.Failed? ==> r == QuickTipError
    ensures reply.Answered? && reply.text.Some? && !AllSpace(reply.text.value) ==>
      r == Trim(reply.text.value)
    ensures reply.Answered? && (reply.text.None? || AllSpace(reply.text.value)) ==> r == QuickTipEmpty
  {
    match reply
    case Failed => QuickTipError
    case Answered(text) =>
      var t := if text.Some? then Trim(text.value) else "";
      TrimFacts(if text.Some? then text.value else "");
      if t != "" then t else QuickTipEmpty
  }

  /** A tip is never empty and never starts or ends with white space. */
  lemma QuickTipIsTrimmed(reply: TextReply)
    ensures QuickTip(reply) != "" && Trim(QuickTip(reply)) == QuickTip(reply)
  {
    if reply.Answered? && reply.text.Some? && !AllSpace(reply.text.value) {
      TrimFacts(reply.text.value);
      TrimIdempotent(reply.text.value);
    } else {
      var r := QuickTip(reply);
      assert !IsSpace(r[0]) && !IsSpace(r[|r| - 1]);
      assert LeadingSpace(r) == 0 && r[0..] == r;
      assert TrailingSpace(r) == |r|;
    }
  }

  /** getDeepStrategy's result: the reply text as it came, untrimmed, when it is not
      empty; the quiet-reply fallback otherwise; the error fallback when the call threw. */
  function DeepStrategy(reply: TextReply): (r: string)
    ensures r != ""
    ensures reply.Failed? ==> r == StrategyError
    ensures reply.Answered? && reply.text.Some? && reply.text.value != "" ==> r == reply.text.value
    ensures reply.Answered? && (reply.text.None? || reply.text.value == "") ==> r == StrategyEmpty
  {
    match reply
    case Failed => StrategyError
    case Answered(text) => if text.Some? && text.value != "" then text.value else StrategyEmpty
  }

  /** Unlike a tip, a strategy made only of blanks is passed on as it is. */
  lemma StrategyKeepsBlanks()
    ensures DeepStrategy(Answered(Some("  "))) == "  "
    ensures QuickTip(Answered(Some("  "))) == QuickTipEmpty
  {
    assert AllSpace("  ");
  }

  /** One content part of a reply; only whether it carries inline image data matters. */
  datatype Part = Part(inlineData: Option<string>)

  /** The first candidate of a reply, whose content may lack a parts list. */
  datatype Candidate = Candidate(parts: Option<seq<Part>>)

  /** What an image call produced: an error thrown, or a reply whose candidate list may be missing. */
  datatype ImageReply = ImageFailed | ImageAnswered(candidates: Option<seq<Candidate>>)

  /** The position of the first part carrying inline data, if any. */
  function FirstInline(parts: seq<Part>): (r: Option<nat>)
    ensures r.None? <==> forall k :: 0 <= k < |parts| ==> parts[k].inlineData.None?
    ensures r.Some? ==>
      && r.value < |parts| && parts[r.value].inlineData.Some?
      && forall k :: 0 <= k < r.value ==> parts[k].inlineData.None?
  {
    if parts == [] then None
    else if parts[0].inlineData.Some? then Some(0)
    else
      match FirstInline(parts[1..])
      case None => None
      case Some(j) => Some(j + 1)
  }

  /** The image calls' result: the data URL of the first inline part of the first
      candidate; null (None) when the call threw, when there are no candidates to
      read parts from, or when no part carries data. Reading the first element of
      an empty candidate list throws, and that too ends in null. */
  function ImageResult(reply: ImageReply): (r: Option<string>)
    ensures r.Some? <==>
      && reply.ImageAnswered? && reply.candidates.Some? && |reply.candidates.value| > 0
      && reply.candidates.value[0].parts.Some?
      && FirstInline(reply.candidates.value[0].parts.value).Some?
    ensures r.Some? ==>
      var ps := reply.candidates.value[0].parts.value;
      r.value == DataUrl(ps[FirstInline(ps).value].inlineData.value)
  {
    match reply
    case ImageFailed => None
    case ImageAnswered(candidates) =>
      if candidates.None? then None
      else if |candidates.value| == 0 then None
      else
        var parts := if candidates.value[0].parts.Some? then candidates.value[0].parts.value else [];
        match FirstInline(parts)
        case None => None
        case Some(k) => Some(DataUrl(parts[k].inlineData.value))
  }

  /** An image produced by an image call and passed to editHuntArt is sent as its
      bare base64 data. */
  lemma EditOfGeneratedArt(reply: ImageReply)
    requires ImageResult(reply).Some?
    requires var d := ImageResult(reply).value[|DataUrlPrefix|..]; d != "" && ',' !in d
    ensures StripPrefix(ImageResult(reply).value) == ImageResult(reply).value[|DataUrlPrefix|..]
  {
    var ps := reply.candidates.value[0].parts.value;
    var d := ps[FirstInline(ps).value].inlineData.value;
    assert ImageResult(reply).value[|DataUrlPrefix|..] == d;
    StripDataUrl(d);
  }
}
