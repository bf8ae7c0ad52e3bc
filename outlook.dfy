/**
 * The Microsoft Graph side of the backend (backend/app/services/outlook.py):
 * the query that `get_email_preview` sends, and the mapping of Graph's
 * JSON messages to EmailPreview and EmailContent records. The HTTP calls
 * themselves are not modelled: the JSON they return is an input, with an
 * absent field as None. A record that pydantic would refuse (a required
 * string missing) makes the mapping fail, as the exception does.
 */
module Outlook {
  import opened Wrappers
  import opened EmailModels

  // ---------------------------------------------------------------------
  // The preview query
  // ---------------------------------------------------------------------

  const SelectFields: string := "id,subject,from,receivedDateTime,bodyPreview"
  const OrderBy: string := "receivedDateTime desc"

  /** The messages endpoint below `/me/mailFolders` and the query
      parameters, in the order the dictionary receives them. */
  datatype PreviewRequest = PreviewRequest(folderPath: string, params: seq<(string, string)>)

  /** The value of a query parameter, if it is sent. */
  function Param(params: seq<(string, string)>, key: string): Option<string> {
    if params == [] then None
    else if params[0].0 == key then Some(params[0].1)
    else Param(params[1..], key)
  }

  /** Looking a key up in two parameter lists sent one after the other. */
  lemma {:induction false} ParamAppend(a: seq<(string, string)>, b: seq<(string, string)>, key: string)
    ensures Param(a + b, key) == if Param(a, key).Some? then Param(a, key) else Param(b, key)
  {
    if a == [] {
      assert a + b == b;
    } else {
      assert (a + b)[0] == a[0];
      assert (a + b)[1..] == a[1..] + b;
      ParamAppend(a[1..], b, key);
    }
  }

  /** The `$filter` clauses: received after the start, before the end, from
      the sender, each only when given. The sender goes between single
      quotes exactly as given, without escaping. */
  function FilterParts(startDate: Option<string>, endDate: Option<string>, sender: Option<string>)
    : (parts: seq<string>)
    ensures |parts| == (if startDate.Some? then 1 else 0) + (if endDate.Some? then 1 else 0)
      + (if sender.Some? && sender.value != "" then 1 else 0)
    ensures parts == [] <==> startDate.None? && endDate.None? && (sender.None? || sender.value == "")
    ensures startDate.Some? ==> parts[0] == "receivedDateTime ge " + startDate.value
    ensures endDate.Some? ==> parts[if startDate.Some? then 1 else 0] == "receivedDateTime le " + endDate.value
    ensures sender.Some? && sender.value != "" ==>
      parts[|parts| - 1] == "from/emailAddress/address eq '" + sender.value + "'"
  {
    (if startDate.Some? then ["receivedDateTime ge " + startDate.value] else [])
    + (if endDate.Some? then ["receivedDateTime le " + endDate.value] else [])
    + (if sender.Some? && sender.value != "" then ["from/emailAddress/address eq '" + sender.value + "'"] else [])
  }

  /** The query of `get_email_preview`. The page size is a parameter: the
      setting it is read from is not part of this model. */
  function PreviewQuery(maxPreviews: nat, folderId: Option<string>, startDate: Option<string>,
                        endDate: Option<string>, keywords: Option<seq<string>>, sender: Option<string>)
    : (r: PreviewRequest)
    ensures r.folderPath == if folderId.Some? && folderId.value != "" then "/" + folderId.value else ""
    ensures |r.params| >= 3 && r.params[..3] ==
      [("$top", NatToString(maxPreviews)), ("$select", SelectFields), ("$orderby", OrderBy)]
  {
    var params := FixedParams(maxPreviews) + FilterEntry(FilterParts(startDate, endDate, sender))
                  + SearchEntry(keywords);
    PreviewRequest(if folderId.Some? && folderId.value != "" then "/" + folderId.value else "", params)
  }

  /** The fixed parameters of the preview query. */
  function FixedParams(maxPreviews: nat): seq<(string, string)> {
    [("$top", NatToString(maxPreviews)), ("$select", SelectFields), ("$orderby", OrderBy)]
  }

  /** `$filter` with the clauses joined by " and ", when there is one. */
  function FilterEntry(parts: seq<string>): seq<(string, string)> {
    if parts != [] then [("$filter", Join(" and ", parts))] else []
  }

  /** The keywords joined by " OR ", "" without keywords. */
  function SearchString(keywords: Option<seq<string>>): string {
    if keywords.Some? && |keywords.value| > 0 then Join(" OR ", keywords.value) else ""
  }

  /** `$search` with the joined keywords in double quotes, when they are
      not empty. */
  function SearchEntry(keywords: Option<seq<string>>): seq<(string, string)> {
    var search := SearchString(keywords);
    if search != "" then [("$search", "\"" + search + "\"")] else []
  }

  /** Neither `$filter` nor `$search` is among the fixed parameters, and
      each is looked up in its own entry. */
  lemma PreviewParams(maxPreviews: nat, parts: seq<string>, keywords: Option<seq<string>>, key: string)
    requires key == "$filter" || key == "$search"
    ensures Param(FixedParams(maxPreviews) + FilterEntry(parts) + SearchEntry(keywords), key)
      == if key == "$filter" then Param(FilterEntry(parts), key) else Param(SearchEntry(keywords), key)
  {
    var fp := FixedParams(maxPreviews);
    var f := FilterEntry(parts);
    var s := SearchEntry(keywords);
    assert fp[0].0 != key by { assert |fp[0].0| == 4; }
    assert fp[1].0 != key by { assert fp[1].0[4] == 'e' && key[4] != 'e'; }
    assert fp[2].0 != key by { assert |fp[2].0| == 8; }
    assert fp[1..][0] == fp[1] && fp[1..][1..][0] == fp[2] && fp[1..][1..][1..] == [];
    assert Param(fp[1..][1..], key) == None;
    assert Param(fp, key) == None;
    ParamAppend(fp + f, s, key);
    ParamAppend(fp, f, key);
    if key == "$filter" {
      assert Param(s, key) == None;
    } else {
      assert Param(f, key) == None;
    }
  }

  /** `$filter` is sent exactly when a date or a non-empty sender is
      given, and then joins the clauses with " and ". */
  lemma FilterParam(maxPreviews: nat, folderId: Option<string>, startDate: Option<string>,
                    endDate: Option<string>, keywords: Option<seq<string>>, sender: Option<string>)
    ensures var r := PreviewQuery(maxPreviews, folderId, startDate, endDate, keywords, sender);
      && (Param(r.params, "$filter").Some? <==> startDate.Some? || endDate.Some? || (sender.Some? && sender.value != ""))
      && (Param(r.params, "$filter").Some? ==>
            Param(r.params, "$filter").value == Join(" and ", FilterParts(startDate, endDate, sender)))
  {
    PreviewParams(maxPreviews, FilterParts(startDate, endDate, sender), keywords, "$filter");
  }

  /** `$search` is sent exactly when the keywords joined by " OR " are not
      empty, that is, when there is a keyword and the list is not just one
      empty keyword; its value is that string in double quotes. */
  lemma SearchParam(maxPreviews: nat, folderId: Option<string>, startDate: Option<string>,
                    endDate: Option<string>, keywords: Option<seq<string>>, sender: Option<string>)
    ensures var r := PreviewQuery(maxPreviews, folderId, startDate, endDate, keywords, sender);
      && (Param(r.params, "$search").Some? <==> keywords.Some? && keywords.value != [] && keywords.value != [""])
      && (Param(r.params, "$search").Some? ==>
            Param(r.params, "$search").value == "\"" + Join(" OR ", keywords.value) + "\"")
  {
    PreviewParams(maxPreviews, FilterParts(startDate, endDate, sender), keywords, "$search");
    if keywords.Some? {
      JoinEmpty(" OR ", keywords.value);
    }
  }

  // ---------------------------------------------------------------------
  // Graph JSON
  // ---------------------------------------------------------------------

  datatype GraphAddress = GraphAddress(name: Option<string>, address: Option<string>)

  /** A `from` or recipient object: `{"emailAddress": {...}}`. */
  datatype GraphParty = GraphParty(emailAddress: Option<GraphAddress>)

  datatype GraphBody = GraphBody(content: Option<string>, contentType: Option<string>)

  datatype GraphAttachment = GraphAttachment(
    odataType: Option<string>, id: Option<string>, name: Option<string>,
    contentType: Option<string>, size: Option<int>)

  datatype GraphMessage = GraphMessage(
    id: Option<string>, internetMessageId: Option<string>, subject: Option<string>,
    from: Option<GraphParty>, toRecipients: Option<seq<GraphParty>>, ccRecipients: Option<seq<GraphParty>>,
    receivedDateTime: Option<string>, bodyPreview: Option<string>, body: Option<GraphBody>,
    parentFolderId: Option<string>, attachments: Option<seq<GraphAttachment>>, importance: Option<string>)

  /** `party.get("emailAddress", {}).get(field, default)` for the name. */
  function PartyName(party: Option<GraphParty>, default: string): (n: string)
    ensures party.Some? && party.value.emailAddress.Some? && party.value.emailAddress.value.name.Some? ==>
              n == party.value.emailAddress.value.name.value
    ensures party.None? || party.value.emailAddress.None? || party.value.emailAddress.value.name.None? ==>
              n == default
  {
    if party.Some? && party.value.emailAddress.Some? then party.value.emailAddress.value.name.GetOr(default)
    else default
  }

  /** The same lookup for the address. */
  function PartyAddress(party: Option<GraphParty>, default: string): (a: string)
    ensures party.Some? && party.value.emailAddress.Some? && party.value.emailAddress.value.address.Some? ==>
              a == party.value.emailAddress.value.address.value
    ensures party.None? || party.value.emailAddress.None? || party.value.emailAddress.value.address.None? ==>
              a == default
  {
    if party.Some? && party.value.emailAddress.Some? then party.value.emailAddress.value.address.GetOr(default)
    else default
  }

  /** One Graph message as a preview: a subject defaults to "(No subject)",
      a sender name to "Unknown", a snippet to ""; without an id or a
      received time there is no preview. */
  function MapPreview(m: GraphMessage): (p: Option<EmailPreview>)
    ensures p.Some? <==> m.id.Some? && m.receivedDateTime.Some?
    ensures p.Some? ==> p.value.id == m.id.value && p.value.receivedDate == m.receivedDateTime.value
    ensures p.Some? ==> p.value.subject == (if m.subject.Some? then m.subject.value else "(No subject)")
    ensures p.Some? ==> p.value.snippet == (if m.bodyPreview.Some? then m.bodyPreview.value else "")
    ensures p.Some? && (m.from.None? || m.from.value.emailAddress.None?) ==> p.value.sender == "Unknown"
    ensures p.Some? ==> p.value.sender == PartyName(m.from, "Unknown")
  {
    if m.id.None? || m.receivedDateTime.None? then None
    else Some(EmailPreview(m.id.value, m.subject.GetOr("(No subject)"), PartyName(m.from, "Unknown"),
                           m.receivedDateTime.value, m.bodyPreview.GetOr("")))
  }

  /** The previews of a response, in order; one unmappable message fails
      the whole response. */
  function PreviewsOf(messages: seq<GraphMessage>): (r: Option<seq<EmailPreview>>)
    ensures r.Some? <==> forall i :: 0 <= i < |messages| ==> MapPreview(messages[i]).Some?
    ensures r.Some? ==> |r.value| == |messages|
    ensures r.Some? ==> forall i :: 0 <= i < |messages| ==> r.value[i] == MapPreview(messages[i]).value
  {
    if messages == [] then Some([])
    else
      var rest := PreviewsOf(messages[..|messages| - 1]);
      var last := MapPreview(messages[|messages| - 1]);
      assert forall i :: 0 <= i < |messages| - 1 ==> messages[..|messages| - 1][i] == messages[i];
      if rest.None? || last.None? then None else Some(rest.value + [last.value])
  }

  /** The loop of `get_email_preview` that converts the messages. */
  method MapPreviews(messages: seq<GraphMessage>) returns (r: Option<seq<EmailPreview>>)
    ensures r == PreviewsOf(messages)
  {
    var previews: seq<EmailPreview> := [];
    var i := 0;
    while i < |messages|
      invariant 0 <= i <= |messages|
      invariant PreviewsOf(messages[..i]) == Some(previews)
    {
      var p := MapPreview(messages[i]);
      assert messages[..i + 1][..i] == messages[..i];
      if p.None? {
        assert !(forall j :: 0 <= j < |messages| ==> MapPreview(messages[j]).Some?);
        return None;
      }
      previews := previews + [p.value];
      i := i + 1;
    }
    assert messages[..i] == messages;
    r := Some(previews);
  }

  const FileAttachmentType: string := "#microsoft.graph.fileAttachment"

  /** A file attachment as a record, its size defaulting to 0; the content
      is filled in later by the parser. Without an id, a name or a content
      type there is no record. */
  function MapAttachment(a: GraphAttachment): (r: Option<EmailAttachment>)
    ensures r.Some? <==> a.id.Some? && a.name.Some? && a.contentType.Some?
    ensures r.Some? ==> r.value.size == (if a.size.Some? then a.size.value else 0) && r.value.content.None?
  {
    if a.id.None? || a.name.None? || a.contentType.None? then None
    else Some(EmailAttachment(a.id.value, a.name.value, a.contentType.value, a.size.GetOr(0), None))
  }

  /** Every file attachment among them has a record. */
  predicate FilesMappable(attachments: seq<GraphAttachment>) {
    forall i :: 0 <= i < |attachments| && attachments[i].odataType == Some(FileAttachmentType) ==>
      MapAttachment(attachments[i]).Some?
  }

  /** The file attachments of a message, in order; other kinds (item and
      reference attachments) are skipped. */
  function FileAttachmentsOf(attachments: seq<GraphAttachment>): (r: Option<seq<EmailAttachment>>)
    ensures r.Some? ==> |r.value| <= |attachments|
    ensures r.Some? <==> FilesMappable(attachments)
  {
    if attachments == [] then Some([])
    else
      var rest := FileAttachmentsOf(attachments[..|attachments| - 1]);
      var a := attachments[|attachments| - 1];
      assert forall i :: 0 <= i < |attachments| - 1 ==> attachments[..|attachments| - 1][i] == attachments[i];
      if a.odataType != Some(FileAttachmentType) then rest
      else
        var m := MapAttachment(a);
        if rest.None? || m.None? then None else Some(rest.value + [m.value])
  }

  /** Only file attachments are kept: a message whose attachments are all
      of other kinds has none, and one file attachment becomes one record. */
  lemma FileAttachmentsOnly(a: GraphAttachment)
    ensures a.odataType != Some(FileAttachmentType) ==> FileAttachmentsOf([a]) == Some([])
    ensures a.odataType == Some(FileAttachmentType) && MapAttachment(a).Some? ==>
      FileAttachmentsOf([a]) == Some([MapAttachment(a).value])
  {
    assert [a][..0] == [];
    assert FileAttachmentsOf([a][..0]) == Some([]);
    if a.odataType == Some(FileAttachmentType) && MapAttachment(a).Some? {
      assert [] + [MapAttachment(a).value] == [MapAttachment(a).value];
    }
  }

  /** The attachments are taken in order: the records of a concatenation
      are the records of each part, one after the other, and it fails
      exactly when a part fails. */
  lemma {:induction false} FileAttachmentsOfConcat(a: seq<GraphAttachment>, b: seq<GraphAttachment>)
    ensures FileAttachmentsOf(a + b)
      == if FileAttachmentsOf(a).Some? && FileAttachmentsOf(b).Some?
         then Some(FileAttachmentsOf(a).value + FileAttachmentsOf(b).value)
         else None
  {
    if b == [] {
      assert a + b == a;
      assert FileAttachmentsOf(a).Some? ==> FileAttachmentsOf(a).value + [] == FileAttachmentsOf(a).value;
    } else {
      var init := b[..|b| - 1];
      var last := b[|b| - 1];
      assert (a + b)[..|a + b| - 1] == a + init;
      assert (a + b)[|a + b| - 1] == last;
      FileAttachmentsOfConcat(a, init);
      if last.odataType == Some(FileAttachmentType) && MapAttachment(last).Some?
         && FileAttachmentsOf(a).Some? && FileAttachmentsOf(init).Some? {
        ConcatAssoc(FileAttachmentsOf(a).value, FileAttachmentsOf(init).value, [MapAttachment(last).value]);
      }
    }
  }

  /** The attachment loop of `get_email_content`. */
  method CollectAttachments(attachments: seq<GraphAttachment>) returns (r: Option<seq<EmailAttachment>>)
    ensures r == FileAttachmentsOf(attachments)
  {
    var kept: seq<EmailAttachment> := [];
    var i := 0;
    while i < |attachments|
      invariant 0 <= i <= |attachments|
      invariant FileAttachmentsOf(attachments[..i]) == Some(kept)
    {
      var a := attachments[i];
      assert attachments[..i + 1][..i] == attachments[..i];
      if a.odataType == Some(FileAttachmentType) {
        var m := MapAttachment(a);
        if m.None? {
          assert !FilesMappable(attachments);
          return None;
        }
        kept := kept + [m.value];
      }
      i := i + 1;
    }
    assert attachments[..i] == attachments;
    r := Some(kept);
  }

  /** The addresses of a recipient list, "" for one without an address. */
  function Addresses(parties: seq<GraphParty>): (r: seq<string>)
    ensures |r| == |parties|
    ensures forall i :: 0 <= i < |r| ==> r[i] == PartyAddress(Some(parties[i]), "")
  {
    if parties == [] then [] else [PartyAddress(Some(parties[0]), "")] + Addresses(parties[1..])
  }

  /** A Graph message as EmailContent. The body is HTML exactly when its
      content type is "html"; importance defaults to "normal", the folder
      id to "", and the folder name is always "". */
  function MapContent(m: GraphMessage): (r: Option<EmailContent>)
    ensures r.Some? ==> m.id.Some? && m.internetMessageId.Some? && m.receivedDateTime.Some?
    ensures r.Some? ==> r.value.isHtml == (m.body.Some? && m.body.value.contentType == Some("html"))
    ensures r.Some? ==> r.value.importance == (if m.importance.Some? then m.importance.value else "normal")
    ensures r.Some? ==> r.value.folderName == "" && r.value.folderId == (if m.parentFolderId.Some? then m.parentFolderId.value else "")
    ensures r.Some? ==> r.value.attachments == FileAttachmentsOf(m.attachments.GetOr([]))
    ensures r.Some? <==> m.id.Some? && m.internetMessageId.Some? && m.receivedDateTime.Some?
                         && FileAttachmentsOf(m.attachments.GetOr([])).Some?
    ensures r.Some? ==> r.value.id == m.id.value && r.value.internetMessageId == m.internetMessageId.value
                        && r.value.receivedDate == m.receivedDateTime.value
    ensures r.Some? ==> r.value.subject == (if m.subject.Some? then m.subject.value else "(No subject)")
    ensures r.Some? ==> r.value.sender == PartyName(m.from, "Unknown") && r.value.senderEmail == PartyAddress(m.from, "")
    ensures r.Some? ==> r.value.recipients == Addresses(m.toRecipients.GetOr([]))
                        && r.value.ccRecipients == Some(Addresses(m.ccRecipients.GetOr([])))
    ensures r.Some? ==> r.value.body == (if m.body.Some? && m.body.value.content.Some? then m.body.value.content.value else "")
    ensures r.Some? ==> |r.value.recipients| == |m.toRecipients.GetOr([])|
  {
    var attachments := FileAttachmentsOf(m.attachments.GetOr([]));
    if m.id.None? || m.internetMessageId.None? || m.receivedDateTime.None? || attachments.None? then None
    else
      var body := m.body.GetOr(GraphBody(None, None));
      Some(EmailContent(
        m.id.value, m.internetMessageId.value, m.subject.GetOr("(No subject)"),
        PartyName(m.from, "Unknown"), PartyAddress(m.from, ""),
        Addresses(m.toRecipients.GetOr([])), Some(Addresses(m.ccRecipients.GetOr([]))),
        m.receivedDateTime.value, body.content.GetOr(""), body.contentType.GetOr("") == "html",
        m.parentFolderId.GetOr(""), "", attachments, m.importance.GetOr("normal")))
  }
}
