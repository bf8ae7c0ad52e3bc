/**
 * The analysis step (backend/app/services/llm.py): the text sent to the
 * language model for an email, and the EmailAnalysis built from the JSON
 * object it answers with. The model call and the JSON decoding are not
 * modelled: their result is an input, None when either raised. A field
 * the answer leaves out is None in LlmResult.
 */
module Llm {
  import opened Wrappers
  import opened EmailModels

  // ---------------------------------------------------------------------
  // The text to analyse
  // ---------------------------------------------------------------------

  /** The email's own part of the text: subject, sender, date and body on
      their own lines, between a leading line break and a trailing line of
      four spaces. The date is the stored timestamp. */
  function Header(email: EmailContent): string {
    "\nSubject: " + email.subject + "\nFrom: " + email.sender + " <" + email.senderEmail + ">"
    + "\nDate: " + email.receivedDate + "\nBody:\n" + email.body + "\n    "
  }

  /** Python truthiness of an attachment's optional content. */
  predicate HasContent(a: EmailAttachment) {
    a.content.Some? && |a.content.value| > 0
  }

  /** What one attachment adds: its name and content after a blank line,
      or nothing when it has no content. */
  function AttachmentText(a: EmailAttachment): (r: string)
    ensures |r| == 0 <==> !HasContent(a)
  {
    if HasContent(a) then "\n\n" + a.name + ":\n" + a.content.value else ""
  }

  /** What the attachments add, in list order. */
  function AttachmentTexts(attachments: seq<EmailAttachment>): string {
    if attachments == [] then "" else AttachmentText(attachments[0]) + AttachmentTexts(attachments[1..])
  }

  /** The attachment section: a heading and the attachments' texts when
      the list is not empty, nothing otherwise. */
  function AttachmentSection(attachments: Option<seq<EmailAttachment>>): string {
    if attachments.Some? && attachments.value != [] then "\n\nAttachments:" + AttachmentTexts(attachments.value)
    else ""
  }

  /** The assembly of `content_to_analyze`: the email's part, then the
      attachment heading and texts when there are attachments. */
  method ContentToAnalyze(email: EmailContent) returns (text: string)
    ensures text == Header(email) + AttachmentSection(email.attachments)
  {
    text := Header(email);
    if email.attachments.Some? && email.attachments.value != [] {
      text := text + "\n\nAttachments:";
      text := AppendAttachments(text, email.attachments.value);
    }
  }

  /** The attachment loop of `content_to_analyze`: each attachment with
      content appends its text, in list order. */
  method AppendAttachments(start: string, attachments: seq<EmailAttachment>) returns (text: string)
    ensures text == start + AttachmentTexts(attachments)
  {
    text := start;
    var i := 0;
    while i < |attachments|
      invariant 0 <= i <= |attachments|
      invariant text == start + AttachmentTexts(attachments[..i])
    {
      var a := attachments[i];
      AttachmentTextsStep(attachments, i);
      var done := AttachmentTexts(attachments[..i]);
      if HasContent(a) {
        text := text + AttachmentText(a);
        ConcatAssoc(start, done, AttachmentText(a));
      } else {
        NothingAdded(done, a);
      }
      i := i + 1;
    }
    assert attachments[..i] == attachments;
  }

  lemma NothingAdded(done: string, a: EmailAttachment)
    requires !HasContent(a)
    ensures done + AttachmentText(a) == done
  {
  }

  lemma AttachmentTextsStep(attachments: seq<EmailAttachment>, i: nat)
    requires i < |attachments|
    ensures AttachmentTexts(attachments[..i + 1]) == AttachmentTexts(attachments[..i]) + AttachmentText(attachments[i])
  {
    assert attachments[..i + 1] == attachments[..i] + [attachments[i]];
    AttachmentTextsConcat(attachments[..i], [attachments[i]]);
    assert AttachmentTexts([attachments[i]]) == AttachmentText(attachments[i]) + "";
  }

  /** The heading is there exactly when the list of attachments is not
      empty, even when no attachment has content. */
  lemma SectionOnlyWithAttachments(attachments: Option<seq<EmailAttachment>>)
    ensures AttachmentSection(attachments) != "" <==> attachments.Some? && attachments.value != []
    ensures attachments.Some? && attachments.value != [] ==>
      StartsWith(AttachmentSection(attachments), "\n\nAttachments:")
  {
    if attachments.Some? && attachments.value != [] {
      var s := AttachmentSection(attachments);
      assert s[..|"\n\nAttachments:"|] == "\n\nAttachments:";
    }
  }

  /** The texts of two lists one after the other are the texts of each, in
      order: attachments contribute independently and in list order. */
  lemma {:induction false} AttachmentTextsConcat(a: seq<EmailAttachment>, b: seq<EmailAttachment>)
    ensures AttachmentTexts(a + b) == AttachmentTexts(a) + AttachmentTexts(b)
  {
    if a == [] {
      assert a + b == b;
    } else {
      assert (a + b)[0] == a[0];
      assert (a + b)[1..] == a[1..] + b;
      AttachmentTextsConcat(a[1..], b);
      ConcatAssoc(AttachmentText(a[0]), AttachmentTexts(a[1..]), AttachmentTexts(b));
    }
  }

  /** Attachments without content add nothing, wherever they stand. */
  lemma {:induction false} ContentlessSkipped(a: seq<EmailAttachment>, x: EmailAttachment, b: seq<EmailAttachment>)
    requires !HasContent(x)
    ensures AttachmentTexts(a + [x] + b) == AttachmentTexts(a + b)
  {
    AttachmentTextsConcat(a + [x], b);
    AttachmentTextsConcat(a, [x]);
    AttachmentTextsConcat(a, b);
    assert [x][1..] == [];
    assert AttachmentTexts([x]) == "";
    assert AttachmentTexts(a) + "" == AttachmentTexts(a);
  }

  // ---------------------------------------------------------------------
  // The analysis
  // ---------------------------------------------------------------------

  /** The fields of the model's JSON answer; None for a field it leaves
      out. */
  datatype LlmResult = LlmResult(
    sensitivity: Option<string>, department: Option<string>, tags: Option<seq<string>>,
    isPrivate: Option<bool>, piiDetected: Option<seq<string>>, recommendedAction: Option<string>,
    summary: Option<string>, keyPoints: Option<seq<string>>)

  /** The answer with every field left out. */
  const EmptyResult: LlmResult := LlmResult(None, None, None, None, None, None, None, None)

  /** The analysis returned when anything fails: low sensitivity, general,
      private and excluded, with a summary asking for manual review. */
  const Fallback: EmailAnalysis := EmailAnalysis(
    Low, General, ["error", "processing_failed"], true, [], "exclude",
    "Analysis failed. Please review manually.", ["Analysis failed due to an error."])

  /** The validation of a list of PII names: each must name a PII type. */
  function ParsePIIList(names: seq<string>): (r: Option<seq<PIIType>>)
    ensures r.Some? <==> forall i :: 0 <= i < |names| ==> ParsePII(names[i]).Some?
    ensures r.Some? ==> |r.value| == |names| && forall i :: 0 <= i < |names| ==> r.value[i].WireName() == names[i]
  {
    if names == [] then Some([])
    else
      var first := ParsePII(names[0]);
      var rest := ParsePIIList(names[1..]);
      assert forall i :: 1 <= i < |names| ==> names[1..][i - 1] == names[i];
      if first.None? || rest.None? then None else Some([first.value] + rest.value)
  }

  /** The default of `recommended_action`: exclude private emails, store
      the others. */
  function DefaultAction(isPrivate: Option<bool>): (action: string)
    ensures action == "exclude" <==> isPrivate == Some(true)
    ensures action == "store" <==> isPrivate != Some(true)
  {
    if isPrivate.GetOr(false) then "exclude" else "store"
  }

  /** The EmailAnalysis built from an answer, each missing field at its
      default; None when validation refuses an enumeration value. */
  function AnalysisOf(result: LlmResult): (a: Option<EmailAnalysis>)
    ensures a.Some? <==>
      && ParseSensitivity(result.sensitivity.GetOr("low")).Some?
      && ParseDepartment(result.department.GetOr("general")).Some?
      && ParsePIIList(result.piiDetected.GetOr([])).Some?
  {
    var sensitivity := ParseSensitivity(result.sensitivity.GetOr("low"));
    var department := ParseDepartment(result.department.GetOr("general"));
    var pii := ParsePIIList(result.piiDetected.GetOr([]));
    if sensitivity.None? || department.None? || pii.None? then None
    else Some(EmailAnalysis(
      sensitivity.value, department.value, result.tags.GetOr([]), result.isPrivate.GetOr(false), pii.value,
      result.recommendedAction.GetOr(DefaultAction(result.isPrivate)), result.summary.GetOr(""),
      result.keyPoints.GetOr([])))
  }

  /** `analyze_email_content` after the call: the analysis of the answer,
      or the fallback when the call, the decoding or the validation
      raised. */
  function Analyze(reply: Option<LlmResult>): (a: EmailAnalysis)
    ensures reply.None? ==> a == Fallback
    ensures reply.Some? && AnalysisOf(reply.value).None? ==> a == Fallback
    ensures reply.Some? && AnalysisOf(reply.value).Some? ==> a == AnalysisOf(reply.value).value
  {
    if reply.None? then Fallback
    else
      match AnalysisOf(reply.value)
      case None => Fallback
      case Some(analysis) => analysis
  }

  /** An answer with every field left out gives low sensitivity, general,
      no tags, not private, no PII, "store", an empty summary and no key
      points. */
  lemma MissingFieldsDefault()
    ensures Analyze(Some(EmptyResult)) ==
      EmailAnalysis(Low, General, [], false, [], "store", "", [])
  {
    assert ParsePIIList([]) == Some([]);
  }

  /** The fields the answer gives are kept: the enumerations name the
      given values, the rest are copied, and a missing recommendation
      follows privacy. */
  lemma GivenFieldsKept(result: LlmResult)
    requires AnalysisOf(result).Some?
    ensures var a := Analyze(Some(result));
      && (result.sensitivity.Some? ==> a.sensitivity.Name() == result.sensitivity.value)
      && (result.department.Some? ==> a.department.Name() == result.department.value)
      && (result.piiDetected.Some? ==>
            |a.piiDetected| == |result.piiDetected.value|
            && forall i :: 0 <= i < |a.piiDetected| ==> a.piiDetected[i].WireName() == result.piiDetected.value[i])
      && (result.tags.Some? ==> a.tags == result.tags.value)
      && (result.isPrivate.Some? ==> a.isPrivate == result.isPrivate.value)
      && (result.recommendedAction.Some? ==> a.recommendedAction == result.recommendedAction.value)
      && (result.recommendedAction.None? ==>
            (a.recommendedAction == "exclude" <==> a.isPrivate))
      && (result.summary.Some? ==> a.summary == result.summary.value)
      && (result.keyPoints.Some? ==> a.keyPoints == result.keyPoints.value)
  {
  }

  /** Whatever goes wrong, the email is treated as private and excluded:
      an analysis that is not private comes from a valid answer. */
  lemma FailureIsPrivate(reply: Option<LlmResult>)
    ensures reply.None? || AnalysisOf(reply.value).None? ==>
      Analyze(reply).isPrivate && Analyze(reply).recommendedAction == "exclude"
    ensures !Analyze(reply).isPrivate ==> reply.Some? && AnalysisOf(reply.value).Some?
  {
  }

  /** A value outside an enumeration sends the answer to the fallback,
      even when every other field is valid. */
  lemma InvalidEnumFallsBack(result: LlmResult)
    requires result.sensitivity == Some("secret")
    ensures Analyze(Some(result)) == Fallback
  {
    assert ParseSensitivity("secret").None?;
  }
}
