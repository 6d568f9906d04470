/**
 * The text handling of the completion client (src/claude.rs): joining the text blocks
 * of a reply, and `extract_json`, which cuts the JSON payload out of free-form reply text.
 * The HTTP request, the reply decoding and the final JSON parse are not part of this model.
 */
module Claude {
  import opened Wrappers
  import opened Text

  /** A content block of a reply; only some blocks carry text. */
  datatype ContentBlock = ContentBlock(text: Option<string>)

  /** The texts of the blocks that have one, in order (`filter_map(|b| b.text)`). */
  function BlockTexts(blocks: seq<ContentBlock>): (r: seq<string>)
    ensures |r| <= |blocks|
  {
    if blocks == [] then []
    else
      var rest := BlockTexts(blocks[1..]);
      match blocks[0].text
      case Some(t) => [t] + rest
      case None => rest
  }

  /** The reply text `complete` returns: the block texts joined with newlines. */
  function ReplyText(blocks: seq<ContentBlock>): string {
    Join(BlockTexts(blocks), "\n")
  }

  /** Every block that has text contributes it, after the texts of the blocks before it. */
  lemma {:induction false} BlockTextsInOrder(blocks: seq<ContentBlock>, i: nat)
    requires i < |blocks| && blocks[i].text.Some?
    ensures var r := BlockTexts(blocks); var k := |BlockTexts(blocks[..i])|;
      k < |r| && r[k] == blocks[i].text.value
  {
    if i > 0 {
      BlockTextsInOrder(blocks[1..], i - 1);
      assert blocks[1..][..i - 1] == blocks[..i][1..];
    }
  }

  /** Every listed text is the text of some block: nothing else appears. */
  lemma {:induction false} BlockTextsFromBlocks(blocks: seq<ContentBlock>, k: nat) returns (i: nat)
    requires k < |BlockTexts(blocks)|
    ensures i < |blocks| && blocks[i].text == Some(BlockTexts(blocks)[k])
  {
    match blocks[0].text
    case Some(t) =>
      if k == 0 {
        i := 0;
      } else {
        var i' := BlockTextsFromBlocks(blocks[1..], k - 1);
        i := i' + 1;
      }
    case None =>
      var i' := BlockTextsFromBlocks(blocks[1..], k);
      i := i' + 1;
  }

  /** Blocks without text add nothing. */
  lemma {:induction false} BlockTextsSkipEmpty(a: seq<ContentBlock>, b: seq<ContentBlock>)
    ensures BlockTexts(a + [ContentBlock(None)] + b) == BlockTexts(a) + BlockTexts(b)
  {
    if a == [] {
      assert ([] + [ContentBlock(None)] + b)[1..] == b;
    } else {
      assert (a + [ContentBlock(None)] + b)[1..] == a[1..] + [ContentBlock(None)] + b;
      BlockTextsSkipEmpty(a[1..], b);
    }
  }

  /** When no block text holds a newline, splitting the reply at newlines gives the block texts back. */
  lemma ReplyTextSplits(blocks: seq<ContentBlock>)
    requires BlockTexts(blocks) != []
    requires forall k :: 0 <= k < |BlockTexts(blocks)| ==> '\n' !in BlockTexts(blocks)[k]
    ensures Split(ReplyText(blocks), '\n') == BlockTexts(blocks)
  {
    SplitJoin(BlockTexts(blocks), '\n');
  }

  /** The outcome of `extract_json`: the extracted text, or the panic of an inverted slice. */
  datatype Extraction = Extracted(json: string) | SlicePanic(start: nat, end: nat)

  /** The trimmed text between the first `opener` and the next "```" after it, if both occur. */
  function FenceBody(text: string, opener: string): Option<string> {
    match Find(text, opener)
    case None => None
    case Some(start) =>
      var content := text[start + |opener|..];
      match Find(content, "```")
      case None => None
      case Some(end) => Some(Trim(content[..end]))
  }

  /** Step 1: the trimmed interior of the first "```json" fence that has a closing "```". */
  function TaggedFence(text: string): Option<string> {
    FenceBody(text, "```json")
  }

  /** Step 2: the trimmed interior of the first "```" fence, when it starts like a JSON object or array. */
  function UntaggedFence(text: string): (r: Option<string>)
    ensures r.Some? ==> r.value != [] && (r.value[0] == '{' || r.value[0] == '[')
  {
    match FenceBody(text, "```")
    case Some(inner) =>
      if inner != [] && (inner[0] == '{' || inner[0] == '[') then Some(inner) else None
    case None => None
  }

  /** Steps 3 and 4 as written: from the first '{' to the last '}' inclusive, else the text itself. */
  function BraceSpan(text: string): Extraction {
    match (Find(text, "{"), RFind(text, '}'))
    case (Some(start), Some(end)) =>
      if start <= end + 1 then Extracted(text[start..end + 1]) else SlicePanic(start, end)
    case _ => Extracted(text)
  }

  /** `extract_json` as written: the first step that applies wins. */
  function ExtractJson(text: string): Extraction {
    match TaggedFence(text)
    case Some(inner) => Extracted(inner)
    case None =>
      match UntaggedFence(text)
      case Some(inner) => Extracted(inner)
      case None => BraceSpan(text)
  }

  /** Steps 3 and 4 as intended: the brace span only when the last '}' follows the first '{'. */
  function CheckedBraceSpan(text: string): string {
    match (Find(text, "{"), RFind(text, '}'))
    case (Some(start), Some(end)) => if start < end then text[start..end + 1] else text
    case _ => text
  }

  /** `extract_json` with the inverted slice turned into the verbatim fallback. */
  function ExtractJsonChecked(text: string): string {
    match TaggedFence(text)
    case Some(inner) => inner
    case None =>
      match UntaggedFence(text)
      case Some(inner) => inner
      case None => CheckedBraceSpan(text)
  }

  /** What `complete_json` hands to the JSON parser: `extract_json` of the reply text, panic included. */
  function JsonPayload(blocks: seq<ContentBlock>): Extraction {
    ExtractJson(ReplyText(blocks))
  }

  /** The same step with the corrected extraction, which never panics. */
  function CheckedJsonPayload(blocks: seq<ContentBlock>): string {
    ExtractJsonChecked(ReplyText(blocks))
  }

  /** A piece of a slice of `text` is a piece of `text`. */
  lemma SliceOfSlice(text: string, from: nat, len: nat, i: nat, j: nat)
    requires from + len <= |text| && i <= j <= len
    ensures IsSubstring(text[from..from + len][i..j], text)
  {
    var piece := text[from..from + len];
    assert forall k :: 0 <= k < j - i ==> piece[i..j][k] == text[from + i + k];
    assert piece[i..j] == text[from + i..from + j];
  }

  /** A trimmed slice of `text` is a piece of `text`. */
  lemma TrimmedPieceIsSubstring(text: string, from: nat, len: nat)
    requires from + len <= |text|
    ensures IsSubstring(Trim(text[from..from + len]), text)
  {
    var i, n := TrimIsSlice(text[from..from + len]);
    SliceOfSlice(text, from, len, i, i + n);
  }

  /** The trimmed first `len` characters after `from` lie inside `text`. */
  lemma FencePieceIsSubstring(text: string, from: nat, len: nat)
    requires from <= |text| && len <= |text[from..]|
    ensures IsSubstring(Trim(text[from..][..len]), text)
  {
    assert text[from..][..len] == text[from..from + len];
    TrimmedPieceIsSubstring(text, from, len);
  }

  /** A fence body is a contiguous piece of the text it was found in. */
  lemma FenceBodyIsSubstring(text: string, opener: string)
    requires FenceBody(text, opener).Some?
    ensures IsSubstring(FenceBody(text, opener).value, text)
  {
    var start := Find(text, opener).value;
    var end := Find(text[start + |opener|..], "```").value;
    FencePieceIsSubstring(text, start + |opener|, end);
  }

  /** Whenever it does not panic, extraction returns a contiguous piece of its input. */
  lemma ExtractIsSubstring(text: string)
    requires ExtractJson(text).Extracted?
    ensures IsSubstring(ExtractJson(text).json, text)
  {
    if TaggedFence(text).Some? {
      FenceBodyIsSubstring(text, "```json");
    } else if UntaggedFence(text).Some? {
      FenceBodyIsSubstring(text, "```");
    } else if Find(text, "{").Some? && RFind(text, '}').Some? {
      var start, end := Find(text, "{").value, RFind(text, '}').value;
      assert text[start..end + 1] == ExtractJson(text).json;
    } else {
      assert text[0..|text|] == text;
    }
  }

  /** The corrected extraction always returns a contiguous piece of its input. */
  lemma ExtractCheckedIsSubstring(text: string)
    ensures IsSubstring(ExtractJsonChecked(text), text)
  {
    if TaggedFence(text).Some? {
      FenceBodyIsSubstring(text, "```json");
    } else if UntaggedFence(text).Some? {
      FenceBodyIsSubstring(text, "```");
    } else if Find(text, "{").Some? && RFind(text, '}').Some? && Find(text, "{").value < RFind(text, '}').value {
      var start, end := Find(text, "{").value, RFind(text, '}').value;
      assert text[start..end + 1] == ExtractJsonChecked(text);
    } else {
      assert text[0..|text|] == text;
    }
  }

  /** A text without any "```" has no fence, tagged or not. */
  lemma NoFence(text: string)
    requires Find(text, "```").None?
    ensures TaggedFence(text).None? && UntaggedFence(text).None?
  {
    if Find(text, "```json").Some? {
      var k := Find(text, "```json").value;
      assert text[k..k + 3] == text[k..k + 7][..3] == "```";
      assert OccursAt(text, "```", k);
    }
  }

  /** Without a usable fence, text that lacks a '{' or a '}' is returned verbatim. */
  lemma NoBracesVerbatim(text: string)
    requires TaggedFence(text).None? && UntaggedFence(text).None?
    requires '{' !in text || '}' !in text
    ensures ExtractJson(text) == Extracted(text)
  {
    if '{' !in text {
      FindAbsent(text, "{");
    } else {
      assert RFind(text, '}').None?;
    }
  }

  /** Text that is already a bare JSON object, with no fence in it, comes back unchanged. */
  lemma BareObjectUnchanged(text: string)
    requires |text| >= 2 && text[0] == '{' && text[|text| - 1] == '}'
    requires Find(text, "```").None?
    ensures ExtractJson(text) == Extracted(text)
  {
    NoFence(text);
    OccursAtChar(text, '{', 0);
    assert Find(text, "{") == Some(0);
    assert RFind(text, '}') == Some(|text| - 1);
    assert text[0..|text|] == text;
  }

  /** The opener is found right after a prefix that holds no backtick. */
  lemma TaggedOpenerAt(pre: string, rest: string)
    requires '`' !in pre
    ensures Find(pre + "```json" + rest, "```json") == Some(|pre|)
  {
    var t := pre + "```json" + rest;
    var k := |pre|;
    assert t[k..k + 7] == "```json";
    assert forall j :: 0 <= j < k ==> t[j] == pre[j];
    FindAt(t, "```json", k);
  }

  /** The closing fence is found right after an interior that holds no backtick. */
  lemma CloserAt(body: string, post: string)
    requires '`' !in body
    ensures Find(body + "```" + post, "```") == Some(|body|)
  {
    var content := body + "```" + post;
    var e := |body|;
    assert content[e..e + 3] == "```";
    assert forall j :: 0 <= j < e ==> content[j] == body[j];
    FindAt(content, "```", e);
  }

  /** A "```json" fence around an interior without backticks yields the trimmed interior. */
  lemma TaggedFenceAround(pre: string, body: string, post: string)
    requires '`' !in pre && '`' !in body
    ensures TaggedFence(pre + "```json" + body + "```" + post) == Some(Trim(body))
  {
    var rest := body + "```" + post;
    var t := pre + "```json" + rest;
    assert pre + "```json" + body + "```" + post == t;
    TaggedOpenerAt(pre, rest);
    assert t[|pre| + 7..] == rest;
    CloserAt(body, post);
    assert rest[..|body|] == body;
  }

  /**
   * Text holding a "```json" fence whose interior is a newline, a payload with non-blank ends
   * and a newline yields the payload, whatever precedes or follows the fence.
   */
  lemma TaggedFenceExtracted(pre: string, obj: string, post: string)
    requires '`' !in pre && '`' !in obj
    requires obj != [] && !IsWhitespace(obj[0]) && !IsWhitespace(obj[|obj| - 1])
    ensures ExtractJson(pre + "```json\n" + obj + "\n```" + post) == Extracted(obj)
  {
    var body := "\n" + obj + "\n";
    assert pre + "```json\n" + obj + "\n```" + post == pre + "```json" + body + "```" + post;
    TaggedFenceAround(pre, body, post);
    TrimNewlines(obj);
  }

  /** The reply in a "```json" fence yields the fence's trimmed interior (unit test `extract_json_from_markdown`). */
  lemma TaggedFenceExample(pre: string, obj: string, post: string)
    requires pre == "Here's the result:\n" && obj == "{\"key\": \"value\"}" && post == "\n"
    ensures ExtractJson(pre + "```json\n" + obj + "\n```" + post) == Extracted(obj)
  {
    TaggedFenceExtracted(pre, obj, post);
  }

  /**
   * Without backticks, text made of a prefix without '{', an object, and a suffix without '}'
   * yields the object.
   */
  lemma BraceSpanAround(pre: string, obj: string, post: string)
    requires |obj| >= 2 && obj[0] == '{' && obj[|obj| - 1] == '}'
    requires '{' !in pre && '}' !in post
    requires '`' !in pre + obj + post
    ensures ExtractJson(pre + obj + post) == Extracted(obj)
  {
    var t := pre + obj + post;
    FindAbsent(t, "```");
    NoFence(t);
    var k := |pre|;
    OccursAtChar(t, '{', k);
    assert forall j :: 0 <= j < k ==> t[j] == pre[j];
    FindAt(t, "{", k);
    var e := |pre| + |obj| - 1;
    assert t[e + 1..] == post;
    RFindAt(t, '}', e);
    assert t[k..e + 1] == obj;
  }

  /** Text around a bare object yields the object (unit test `extract_json_raw`). */
  lemma BraceSpanExample(t: string)
    requires t == "Sure! {\"key\": \"value\"} done."
    ensures ExtractJson(t) == Extracted("{\"key\": \"value\"}")
  {
    var pre, obj, post := "Sure! ", "{\"key\": \"value\"}", " done.";
    assert t == pre + obj + post;
    BraceSpanAround(pre, obj, post);
  }

  /** A bare object comes back unchanged (unit test `extract_json_plain`). */
  lemma PlainExample(t: string)
    requires t == "{\"key\": \"value\"}"
    ensures ExtractJson(t) == Extracted(t)
  {
    FindAbsent(t, "```");
    BareObjectUnchanged(t);
  }

  /** An untagged fence whose interior does not start like JSON is passed over for the brace span. */
  lemma UntaggedFenceNeedsJsonStart(text: string, inner: string)
    requires TaggedFence(text).None?
    requires FenceBody(text, "```") == Some(inner)
    requires inner == [] || (inner[0] != '{' && inner[0] != '[')
    ensures ExtractJson(text) == BraceSpan(text)
  {
  }

  /**
   * The extraction panics exactly when no fence applies and the last '}' comes more than
   * one position before the first '{'.
   */
  lemma PanicsExactly(text: string)
    ensures ExtractJson(text).SlicePanic? <==>
      && TaggedFence(text).None? && UntaggedFence(text).None?
      && Find(text, "{").Some? && RFind(text, '}').Some?
      && RFind(text, '}').value + 1 < Find(text, "{").value
  {
  }

  /** "} {" has a '}' two positions before its only '{': `&text[2..=0]` panics. */
  lemma PanicExample()
    ensures ExtractJson("} {") == SlicePanic(2, 0)
  {
    var t := "} {";
    forall k: nat ensures !OccursAt(t, "```", k) {
      OccursAtHead(t, "```", k);
    }
    NoFence(t);
    OccursAtChar(t, '{', 0);
    OccursAtChar(t, '{', 1);
    OccursAtChar(t, '{', 2);
    assert Find(t, "{") == Some(2);
    assert RFind(t, '}') == Some(0);
  }

  /** The corrected extraction returns "} {" verbatim. */
  lemma CheckedExample()
    ensures ExtractJsonChecked("} {") == "} {"
  {
    var t := "} {";
    forall k: nat ensures !OccursAt(t, "```", k) {
      OccursAtHead(t, "```", k);
    }
    NoFence(t);
    OccursAtChar(t, '{', 0);
    OccursAtChar(t, '{', 1);
    OccursAtChar(t, '{', 2);
    assert Find(t, "{") == Some(2);
    assert RFind(t, '}') == Some(0);
  }

  /** The corrected extraction agrees with the original wherever the original does not panic,
      except on a '}' directly before the first '{', where the original returns the empty slice. */
  lemma CheckedAgrees(text: string)
    requires ExtractJson(text).Extracted?
    ensures ExtractJsonChecked(text) == ExtractJson(text).json ||
      (ExtractJson(text).json == [] && ExtractJsonChecked(text) == text)
  {
  }

  /**
   * The payload `complete_json` parses is a piece of the reply whenever it is extracted, and the
   * corrected payload agrees with it there, up to the empty "}{" span.
   */
  lemma PayloadAgrees(blocks: seq<ContentBlock>)
    requires JsonPayload(blocks).Extracted?
    ensures IsSubstring(JsonPayload(blocks).json, ReplyText(blocks))
    ensures CheckedJsonPayload(blocks) == JsonPayload(blocks).json ||
      (JsonPayload(blocks).json == [] && CheckedJsonPayload(blocks) == ReplyText(blocks))
  {
    ExtractIsSubstring(ReplyText(blocks));
    CheckedAgrees(ReplyText(blocks));
  }
}
