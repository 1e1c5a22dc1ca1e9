/**
 * The importer's text processing: stripping a UTF-8 byte-order mark, the
 * fault-report filter that picks the emails to unsubscribe, and the email
 * list handed to the consent cleanup.
 */
module Faults {
  import opened Collections
  import opened Php
  import opened Queue

  /** The UTF-8 byte-order mark EF BB BF. */
  const Bom: Bytes := [0xEF, 0xBB, 0xBF]

  /** `PHP_EOL` on the platform the extension runs on. */
  const Newline: byte := 10

  const Comma: byte := 44

  predicate StartsWithBom(text: Bytes)
  {
    |text| >= 3 && text[..3] == Bom
  }

  /** `removeUtf8Bom`: the text without one leading byte-order mark, if it has one. */
  function RemoveUtf8Bom(text: Bytes): (r: Bytes)
    ensures text == (if StartsWithBom(text) then Bom else []) + r
    ensures r == text <==> !StartsWithBom(text)
  {
    if StartsWithBom(text) then text[3..] else text
  }

  /** Only one mark is stripped: a second one stays at the front. */
  lemma RemoveUtf8BomOnce(text: Bytes)
    ensures RemoveUtf8Bom(Bom + text) == text
    ensures RemoveUtf8Bom(Bom + Bom + text) == Bom + text
  {
    assert (Bom + text)[..3] == Bom;
    assert (Bom + Bom + text)[..3] == Bom;
    assert Bom + Bom + text == Bom + (Bom + text);
  }

  /** The rejection reasons whose emails are unsubscribed (`$reasons`). */
  const Reasons: seq<Bytes> := [
    Ascii("Globally Suppressed"),
    Ascii("Blocked"),
    Ascii("Unsubscribed"),
    Ascii("Hard Bounced"),
    Ascii("Isp Complaints"),
    Ascii("Domain Suppressed"),
    Ascii("Failures"),
    Ascii("Invalid Entries"),
    Ascii("Mail Blocked"),
    Ascii("Suppressed by you")
  ]

  /** The fields of a report row (`explode(',', $row)`). */
  function Fields(row: Bytes): seq<Bytes>
  {
    Explode(Comma, row)
  }

  /** Whether a row's first field is one of the reasons. */
  predicate IsFault(row: Bytes)
  {
    Fields(row)[0] in Reasons
  }

  /** A row's second field; a row without one yields PHP's null, read as "". */
  function EmailOf(row: Bytes): Bytes
  {
    var fields := Fields(row);
    if |fields| > 1 then fields[1] else []
  }

  /** The emails the filter collects from `rows`, in report order. */
  function FaultEmails(rows: seq<Bytes>): seq<Bytes>
  {
    FilterMap(rows, IsFault, EmailOf)
  }

  /** The loop of `processContactImportReportFaults` that fills `$contacts`. */
  method CollectFaultEmails(rows: seq<Bytes>) returns (contacts: seq<Bytes>)
    ensures contacts == FaultEmails(rows)
  {
    contacts := [];
    var i := 0;
    while i < |rows|
      invariant 0 <= i <= |rows|
      invariant contacts == FaultEmails(rows[..i])
    {
      var row := Explode(Comma, rows[i]);
      if row[0] in Reasons {
        contacts := contacts + [if |row| > 1 then row[1] else []];
      }
      assert rows[..i + 1][..i] == rows[..i];
      i := i + 1;
    }
    assert rows[..i] == rows;
  }

  /** The filter works row by row, so the collected emails keep report order. */
  lemma FaultEmailsAppend(a: seq<Bytes>, b: seq<Bytes>)
    ensures FaultEmails(a + b) == FaultEmails(a) + FaultEmails(b)
  {
    FilterMapAppend(a, b, IsFault, EmailOf);
  }

  /**
   * An email is collected exactly when some row carries it as its second
   * field after a listed reason, and there is one email per such row.
   */
  lemma FaultEmailsExactly(rows: seq<Bytes>)
    ensures |FaultEmails(rows)| == |Filter(rows, IsFault)|
    ensures forall e :: e in FaultEmails(rows) <==> exists i :: 0 <= i < |rows| && IsFault(rows[i]) && EmailOf(rows[i]) == e
  {
    FilterMapCount(rows, IsFault, EmailOf);
    FilterMapMembers(rows, IsFault, EmailOf);
  }

  /** The report's rows: the text without its mark, split into lines, header dropped. */
  function ReportRows(report: Bytes): seq<Bytes>
  {
    Explode(Newline, RemoveUtf8Bom(report))[1..]
  }

  /**
   * The calls `processContactImportReportFaults` makes for the report the
   * client returned: nothing for an absent or falsy report or one with only
   * a header, otherwise one unsubscribe of the collected emails.
   */
  function FaultEffects(report: Option<Bytes>): (effects: seq<Effect>)
    ensures |effects| <= 1
    ensures effects != [] <==> report.Some? && TruthyBytes(report.value) && ReportRows(report.value) != []
    ensures effects != [] ==> effects == [Unsubscribe(FaultEmails(ReportRows(report.value)))]
  {
    if report.Some? && TruthyBytes(report.value) then
      var rows := ReportRows(report.value);
      if rows != [] then [Unsubscribe(FaultEmails(rows))] else []
    else []
  }

  /**
   * Of a header and two rows, one with a listed reason and one with a
   * reason that is not listed, only the first row's email is collected.
   */
  lemma FaultReportExample(header: Bytes, reason: Bytes, email: Bytes, other: Bytes, email2: Bytes)
    requires reason in Reasons && other !in Reasons
    requires |header| > 0 && header[0] != 0xEF
    requires Newline !in header + reason + email + other + email2
    requires Comma !in reason + email + other + email2
    ensures FaultEmails(ReportRows(header + [Newline] + (reason + [Comma] + email)
                                   + [Newline] + (other + [Comma] + email2)))
         == [email]
  {
    var first, second := reason + [Comma] + email, other + [Comma] + email2;
    assert Newline !in first && Newline !in second by {
      assert forall x <- first :: x in reason + email + [Comma];
      assert forall x <- second :: x in other + email2 + [Comma];
    }
    ReportRowsOfLines(header, first, second);
    TwoFields(reason, email);
    TwoFields(other, email2);
    assert IsFault(first) && EmailOf(first) == email;
    assert !IsFault(second);
    KeepFirstOfTwo(first, second, IsFault, EmailOf);
  }

  lemma KeepFirstOfTwo<T, U>(x: T, y: T, p: T -> bool, f: T -> U)
    requires p(x) && !p(y)
    ensures FilterMap([x, y], p, f) == [f(x)]
  {
    assert [x][..0] == [];
    assert FilterMap([x], p, f) == [f(x)];
    assert [x, y][..1] == [x];
  }

  /** Three newline-free lines, the first not starting with a mark, give the last two as rows. */
  lemma ReportRowsOfLines(header: Bytes, a: Bytes, b: Bytes)
    requires Newline !in header && Newline !in a && Newline !in b
    requires |header| > 0 && header[0] != 0xEF
    ensures ReportRows(header + [Newline] + a + [Newline] + b) == [a, b]
  {
    var text := header + [Newline] + a + [Newline] + b;
    assert [header, a, b][1..] == [a, b] && [a, b][1..] == [b];
    assert Implode(Newline, [a, b]) == a + [Newline] + b;
    assert text == Implode(Newline, [header, a, b]);
    assert text[0] == header[0];
    ExplodeImplode(Newline, [header, a, b]);
  }

  /** A row made of two comma-free fields splits into exactly those fields. */
  lemma TwoFields(x: Bytes, y: Bytes)
    requires Comma !in x + y
    ensures Fields(x + [Comma] + y) == [x, y]
  {
    assert [x, y][1..] == [y];
    assert x + [Comma] + y == Implode(Comma, [x, y]);
    assert forall i | 0 <= i < |x| :: x[i] in x + y;
    assert forall i | 0 <= i < |y| :: y[i] in x + y;
    ExplodeImplode(Comma, [x, y]);
  }

  /** A row of the file index `getDataPairs` returns: a key and its value. */
  type DataPair = (string, string)

  /**
   * `cleanProcessedConsent`'s email list: every value of the index except
   * the one under the "Email" header key, in index order.
   */
  function ConsentEmails(index: seq<DataPair>): (emails: seq<string>)
    ensures |emails| <= |index|
    ensures forall k :: 0 <= k < |index| && index[k].0 != "Email" ==> index[k].1 in emails
    ensures forall e <- emails :: exists k :: 0 <= k < |index| && index[k].0 != "Email" && index[k].1 == e
    decreases |index|
  {
    if index == [] then []
    else
      var rest := ConsentEmails(index[1..]);
      assert forall k :: 1 <= k < |index| ==> index[k] == index[1..][k - 1];
      (if index[0].0 == "Email" then [] else [index[0].1]) + rest
  }
}
