/**
 * The notification e-mail (src/notify.js): an HTML body built up piece by piece, one list
 * item per pull request between a fixed header and footer, wrapped in a message record.
 * Sending it is outside this model.
 */
module Notify {
  import opened Wrappers
  import opened Text

  /**
   * A pull request as the e-mail reads it. `repo` is optional: the records `getImportantPRs`
   * produces have no such field, and a template string renders a missing field as `undefined`.
   */
  datatype NotifiedPR = NotifiedPR(repo: Option<string>, url: string, number: nat, title: string, author: string)

  /** `${v}` for a string field that may be missing. */
  function TemplateText(v: Option<string>): string {
    if v.Some? then v.value else "undefined"
  }

  const Heading := "<h1>Important PR Notification</h1>"
  const Intro := "<p>List of important PRs merged yesterday:</p>"
  const Header := Heading + Intro + "<ul>"
  const Footer := "</ul>"
  const Subject := "Repo Change Watcher - Important PR Notification"

  const ItemOpen := "\n      <li>\n        "
  const ItemDash := " -\n        "
  const ItemBreak := "\n        "
  const ItemClose := "\n      </li>\n    "

  /**
   * The pieces of one list item, in order: the repository in bold, the link, the number and
   * title, the author. Every field is inserted as it is, without HTML escaping.
   */
  function ItemParts(pr: NotifiedPR): seq<string> {
    [ItemOpen,
     "<strong>" + TemplateText(pr.repo) + "</strong>",
     ItemDash,
     "<a href=\"" + pr.url + "\">",
     "PR #" + NatToString(pr.number) + ": " + pr.title + "</a>",
     ItemBreak,
     "(by " + pr.author + ")",
     ItemClose]
  }

  /** The list item of one pull request: the template literal appended once per pull request. */
  function ItemHtml(pr: NotifiedPR): string {
    Concat(ItemParts(pr))
  }

  /** The list items of `prs`, in order. */
  function Items(prs: seq<NotifiedPR>): (r: seq<string>)
    ensures |r| == |prs|
  {
    seq(|prs|, i requires 0 <= i < |prs| => ItemHtml(prs[i]))
  }

  /** The e-mail body the loop builds. */
  function EmailBody(prs: seq<NotifiedPR>): string {
    Header + Concat(Items(prs)) + Footer
  }

  /** The message handed to the mail service; `to` and `from` come from the environment. */
  datatype Message = Message(to: Option<string>, from: Option<string>, subject: string, html: string)

  /** The `emailContent` steps: header, then one item per pull request appended in order, then the footer. */
  method BuildEmailContent(prs: seq<NotifiedPR>) returns (content: string)
    ensures content == EmailBody(prs)
  {
    content := Heading;
    content := content + Intro;
    content := content + "<ul>";
    content := AppendItems(content, prs);
    content := content + Footer;
  }

  /** The `for` loop: appends the list item of each pull request, in order, to `start`. */
  method AppendItems(start: string, prs: seq<NotifiedPR>) returns (content: string)
    ensures content == start + Concat(Items(prs))
  {
    content := start;
    ghost var items := Items(prs);
    for i := 0 to |prs|
      invariant content == start + Concat(items[..i])
    {
      ConcatStep(items, i);
      AppendAssoc(start, Concat(items[..i]), items[i]);
      content := content + ItemHtml(prs[i]);
    }
    assert items[..|prs|] == items;
  }

  /** `sendNotification` up to the send: the body and the fixed subject, addressed from the environment. */
  method SendNotification(prs: seq<NotifiedPR>, notifyEmail: Option<string>, fromEmail: Option<string>)
    returns (msg: Message)
    ensures msg.html == EmailBody(prs)
    ensures msg.subject == "Repo Change Watcher - Important PR Notification"
    ensures msg.to == notifyEmail && msg.from == fromEmail
  {
    var body := BuildEmailContent(prs);
    msg := Message(notifyEmail, fromEmail, Subject, body);
  }

  // ---------------------------------------------------------------------------
  // Properties of the body
  // ---------------------------------------------------------------------------

  /**
   * The body opens with the heading, then the paragraph, then `<ul>`, and always closes with
   * `</ul>`; with no pull requests it is exactly those four pieces.
   */
  lemma EmailBodyFrame(prs: seq<NotifiedPR>)
    ensures var body := EmailBody(prs);
      && Heading + Intro + "<ul>" <= body
      && |body| >= |Header| + |Footer|
      && body[|body| - |Footer|..] == "</ul>"
      && (prs == [] ==> body == Heading + Intro + "<ul>" + "</ul>")
  {
    var body := EmailBody(prs);
    assert body == Header + (Concat(Items(prs)) + Footer);
    assert body[..|Header|] == Header;
    assert body[|body| - |Footer|..] == Footer;
  }

  /**
   * One item per pull request, in input order: the item of the `i`-th pull request stands in
   * the body right after the header and the items of the ones before it.
   */
  lemma ItemsInOrder(prs: seq<NotifiedPR>, i: nat)
    requires i < |prs|
    ensures OccursAt(EmailBody(prs), ItemHtml(prs[i]), |Header| + |Concat(Items(prs[..i]))|)
  {
    var items := Items(prs);
    assert items[..i] == Items(prs[..i]);
    ConcatPartFramed(Header, items, Footer, i);
  }

  /** The items of two runs of pull requests are the items of the first followed by those of the second. */
  lemma ItemsSplit(a: seq<NotifiedPR>, b: seq<NotifiedPR>)
    ensures Concat(Items(a + b)) == Concat(Items(a)) + Concat(Items(b))
  {
    var ia, ib, iab := Items(a), Items(b), Items(a + b);
    assert |iab| == |ia + ib|;
    forall k | 0 <= k < |iab| ensures iab[k] == (ia + ib)[k] {
      if k < |a| {
        assert (a + b)[k] == a[k];
      } else {
        assert (a + b)[k] == b[k - |a|];
      }
    }
    assert iab == ia + ib;
    ConcatAppend(ia, ib);
  }

  /**
   * Each item shows the repository in bold (`undefined` when missing), the link, the number
   * and title, and the author exactly as given; nothing is escaped.
   */
  lemma ItemShowsFields(pr: NotifiedPR)
    ensures Contains(ItemHtml(pr), "<strong>" + TemplateText(pr.repo) + "</strong>")
    ensures Contains(ItemHtml(pr), "<a href=\"" + pr.url + "\">")
    ensures Contains(ItemHtml(pr), "PR #" + NatToString(pr.number) + ": " + pr.title + "</a>")
    ensures Contains(ItemHtml(pr), "(by " + pr.author + ")")
    ensures pr.repo.None? ==> TemplateText(pr.repo) == "undefined"
  {
    var parts := ItemParts(pr);
    var s := ItemHtml(pr);
    forall k | 0 <= k < |parts| ensures Contains(s, parts[k]) {
      ConcatPart(parts, k);
      ContainsIff(s, parts[k]);
    }
    assert parts[1] == "<strong>" + TemplateText(pr.repo) + "</strong>";
    assert parts[3] == "<a href=\"" + pr.url + "\">";
    assert parts[4] == "PR #" + NatToString(pr.number) + ": " + pr.title + "</a>";
    assert parts[6] == "(by " + pr.author + ")";
  }
}
