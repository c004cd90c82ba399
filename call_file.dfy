/** The Asterisk call file generateCallFile writes: the lookup of the one
    fax-capable trunk number a fax goes out on, and the text of the file. */
module CallFile {
  import opened FaxTypes
  import opened Text

  /** A row of trunk_numbers with the columns generateCallFile reads
      (full_number, header_ppid, ps_endpoints_id) and filters on (id, is_fax);
      a NULL header_ppid is None. */
  datatype TrunkNumber = TrunkNumber(
    id: nat,
    fullNumber: string,
    headerPpid: Option<string>,
    endpoint: string,
    isFax: bool)

  predicate IsFaxNumber(t: TrunkNumber, numberId: nat) {
    t.id == numberId && t.isFax
  }

  /** The rows the select returns, in table order. */
  function FaxNumbers(trunks: seq<TrunkNumber>, numberId: nat): (r: seq<TrunkNumber>)
    ensures forall t :: t in r ==> t in trunks && IsFaxNumber(t, numberId)
    decreases |trunks|
  {
    if trunks == [] then []
    else
      var head := if IsFaxNumber(trunks[0], numberId) then [trunks[0]] else [];
      head + FaxNumbers(trunks[1..], numberId)
  }

  /** Exactly one row of the table is the fax number `numberId`. */
  predicate ExactlyOneFaxNumber(trunks: seq<TrunkNumber>, numberId: nat) {
    && (exists i :: 0 <= i < |trunks| && IsFaxNumber(trunks[i], numberId))
    && (forall i, j ::
          0 <= i < |trunks| && 0 <= j < |trunks|
          && IsFaxNumber(trunks[i], numberId) && IsFaxNumber(trunks[j], numberId)
          ==> i == j)
  }

  /** generateCallFile's lookup: the one row the select returns, or
      'Could not find outgoing fax number to use' when it returns any other
      number of rows. */
  function LookupFaxNumber(trunks: seq<TrunkNumber>, numberId: nat): (r: Result<TrunkNumber, FaxError>)
    ensures r.Ok? ==> r.value in trunks && IsFaxNumber(r.value, numberId)
    ensures r.Err? ==> r.error == NoFaxNumber
  {
    var rows := FaxNumbers(trunks, numberId);
    if |rows| != 1 then Err(NoFaxNumber) else Ok(rows[0])
  }

  lemma {:induction false} NoFaxNumbers(trunks: seq<TrunkNumber>, numberId: nat)
    ensures |FaxNumbers(trunks, numberId)| == 0
        <==> forall i :: 0 <= i < |trunks| ==> !IsFaxNumber(trunks[i], numberId)
    decreases |trunks|
  {
    if trunks != [] {
      var rest := trunks[1..];
      NoFaxNumbers(rest, numberId);
      assert forall i :: 1 <= i < |trunks| ==> trunks[i] == rest[i - 1];
    }
  }

  lemma {:induction false} OneFaxNumber(trunks: seq<TrunkNumber>, numberId: nat)
    ensures |FaxNumbers(trunks, numberId)| == 1 <==> ExactlyOneFaxNumber(trunks, numberId)
    decreases |trunks|
  {
    if trunks != [] {
      var rest := trunks[1..];
      NoFaxNumbers(rest, numberId);
      OneFaxNumber(rest, numberId);
      assert forall i :: 1 <= i < |trunks| ==> trunks[i] == rest[i - 1];
      if IsFaxNumber(trunks[0], numberId) {
        if ExactlyOneFaxNumber(trunks, numberId) {
          forall i | 0 <= i < |rest| ensures !IsFaxNumber(rest[i], numberId) {
            assert trunks[i + 1] == rest[i];
          }
        }
        if forall i :: 0 <= i < |rest| ==> !IsFaxNumber(rest[i], numberId) {
          assert IsFaxNumber(trunks[0], numberId);
        }
      } else {
        if ExactlyOneFaxNumber(trunks, numberId) {
          var i :| 0 <= i < |trunks| && IsFaxNumber(trunks[i], numberId);
          assert rest[i - 1] == trunks[i];
        }
        if ExactlyOneFaxNumber(rest, numberId) {
          var i :| 0 <= i < |rest| && IsFaxNumber(rest[i], numberId);
          assert trunks[i + 1] == rest[i];
          forall a, b | 0 <= a < |trunks| && 0 <= b < |trunks|
              && IsFaxNumber(trunks[a], numberId) && IsFaxNumber(trunks[b], numberId)
            ensures a == b
          {
            assert rest[a - 1] == trunks[a] && rest[b - 1] == trunks[b];
          }
        }
      }
    }
  }

  /** The lookup succeeds exactly when one row has the id and is a fax
      number: no row and two or more rows are both failures. */
  lemma LookupSucceedsIffExactlyOne(trunks: seq<TrunkNumber>, numberId: nat)
    ensures LookupFaxNumber(trunks, numberId).Ok? <==> ExactlyOneFaxNumber(trunks, numberId)
  {
    OneFaxNumber(trunks, numberId);
  }

  /** JavaScript truthiness of the header_ppid column: not NULL and not empty. */
  predicate Truthy(ppid: Option<string>) {
    ppid.Some? && ppid.value != ""
  }

  const PpidHeaderKey := "Set:PJSIP_HEADER(add,P-Preferred-Identity)="

  /** The template's last line: the header line, or nothing. */
  function HeaderLine(ppid: Option<string>): string {
    if Truthy(ppid) then PpidHeaderKey + ppid.value else ""
  }

  /** The call-file template, line by line, joined with newlines. */
  function CallFileText(
    receiver: string, trunk: string, fullNumber: string,
    faxId: nat, tiffFile: string, ppid: Option<string>): string
  {
    Join([
      "Channel:PJSIP/" + receiver + "@" + trunk,
      "Callerid:\"" + fullNumber + "\"<" + fullNumber + ">",
      "Maxretries:0",
      "Waittime:45",
      "Context:fax",
      "Extension:out",
      "Priority:1",
      "Set:FAXID=" + NatToString(faxId),
      "Set:FAXFILE=" + tiffFile,
      HeaderLine(ppid)], '\n')
  }

  /** No field that is inserted in the template holds a newline. */
  predicate SingleLineFields(
    receiver: string, trunk: string, fullNumber: string,
    tiffFile: string, ppid: Option<string>)
  {
    && '\n' !in receiver && '\n' !in trunk && '\n' !in fullNumber
    && '\n' !in tiffFile && (ppid.Some? ==> '\n' !in ppid.value)
  }

  lemma DigitsHaveNoNewline(s: string)
    requires IsDigits(s)
    ensures '\n' !in s
  {
    assert forall k :: 0 <= k < |s| ==> s[k] != '\n';
  }

  /** Read back line by line, the call file is the ten template lines in
      their fixed order; the last one is the P-Preferred-Identity header with
      the value inserted as it is, or empty. */
  lemma CallFileLines(
    receiver: string, trunk: string, fullNumber: string,
    faxId: nat, tiffFile: string, ppid: Option<string>)
    requires SingleLineFields(receiver, trunk, fullNumber, tiffFile, ppid)
    ensures Split(CallFileText(receiver, trunk, fullNumber, faxId, tiffFile, ppid), '\n') == [
      "Channel:PJSIP/" + receiver + "@" + trunk,
      "Callerid:\"" + fullNumber + "\"<" + fullNumber + ">",
      "Maxretries:0",
      "Waittime:45",
      "Context:fax",
      "Extension:out",
      "Priority:1",
      "Set:FAXID=" + NatToString(faxId),
      "Set:FAXFILE=" + tiffFile,
      if ppid.Some? && ppid.value != "" then "Set:PJSIP_HEADER(add,P-Preferred-Identity)=" + ppid.value else ""]
  {
    var lines := [
      "Channel:PJSIP/" + receiver + "@" + trunk,
      "Callerid:\"" + fullNumber + "\"<" + fullNumber + ">",
      "Maxretries:0",
      "Waittime:45",
      "Context:fax",
      "Extension:out",
      "Priority:1",
      "Set:FAXID=" + NatToString(faxId),
      "Set:FAXFILE=" + tiffFile,
      HeaderLine(ppid)];
    DigitsHaveNoNewline(NatToString(faxId));
    forall k | 0 <= k < |lines| ensures '\n' !in lines[k] {
    }
    SplitJoin(lines, '\n');
  }

  /** The header line is in the file exactly when header_ppid is truthy;
      otherwise the file ends with the FAXFILE line, a newline and an empty
      last line. */
  lemma HeaderLineIffTruthy(
    receiver: string, trunk: string, fullNumber: string,
    faxId: nat, tiffFile: string, ppid: Option<string>)
    requires SingleLineFields(receiver, trunk, fullNumber, tiffFile, ppid)
    ensures var lines := Split(CallFileText(receiver, trunk, fullNumber, faxId, tiffFile, ppid), '\n');
      && |lines| == 10
      && (lines[9] != "" <==> Truthy(ppid))
      && (!Truthy(ppid) ==> lines[8] == "Set:FAXFILE=" + tiffFile && lines[9] == "")
  {
    CallFileLines(receiver, trunk, fullNumber, faxId, tiffFile, ppid);
  }

  /** The job id is written in decimal on the FAXID line and can be read back
      from it exactly. */
  lemma FaxIdReadable(
    receiver: string, trunk: string, fullNumber: string,
    faxId: nat, tiffFile: string, ppid: Option<string>)
    requires SingleLineFields(receiver, trunk, fullNumber, tiffFile, ppid)
    ensures var lines := Split(CallFileText(receiver, trunk, fullNumber, faxId, tiffFile, ppid), '\n');
      && |lines| == 10 && |lines[7]| >= 10
      && lines[7][..10] == "Set:FAXID="
      && IsDigits(lines[7][10..])
      && DecimalValue(lines[7][10..]) == faxId
  {
    CallFileLines(receiver, trunk, fullNumber, faxId, tiffFile, ppid);
    var line := "Set:FAXID=" + NatToString(faxId);
    assert line[10..] == NatToString(faxId);
    DecimalRoundTrip(faxId);
  }

  /** A header value holding a ';' is written without escaping it. */
  lemma HeaderValueNotEscaped(
    receiver: string, trunk: string, fullNumber: string, faxId: nat, tiffFile: string)
    requires SingleLineFields(receiver, trunk, fullNumber, tiffFile, Some("a;b"))
    ensures var lines := Split(CallFileText(receiver, trunk, fullNumber, faxId, tiffFile, Some("a;b")), '\n');
      |lines| == 10 && lines[9] == "Set:PJSIP_HEADER(add,P-Preferred-Identity)=a;b"
  {
    CallFileLines(receiver, trunk, fullNumber, faxId, tiffFile, Some("a;b"));
  }

  /** Fax 7 with a trunk number without header: the FAXID line is
      "Set:FAXID=7" and no header line is written. */
  lemma FaxSevenWithoutHeader(receiver: string, trunk: string, fullNumber: string, tiffFile: string)
    requires SingleLineFields(receiver, trunk, fullNumber, tiffFile, None)
    ensures var lines := Split(CallFileText(receiver, trunk, fullNumber, 7, tiffFile, None), '\n');
      |lines| == 10 && lines[7] == "Set:FAXID=7" && lines[9] == ""
  {
    CallFileLines(receiver, trunk, fullNumber, 7, tiffFile, None);
    assert NatToString(7) == "7";
  }
}
