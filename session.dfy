/** The `WhiteAngel` class: a session id, the list of lookup records it
    appends to in place, one lookup method per kind of target and the
    report writer. The network, the clock and the file system appear as
    parameters standing for their outcomes. */
module Session {
  import opened Wrappers
  import opened Sequences
  import opened Phone
  import opened Email
  import opened Username

  /** A value of the ip-api.com JSON object: a string, or anything else
      (a number, for instance), whose content the model does not need. */
  datatype Field = Text(text: string) | Other

  type IpData = map<string, Field>

  /** The outcome of `requests.get(...)` followed by `response.json()`: a
      JSON object, or an exception (network failure, timeout, a body that
      is not a JSON object). */
  datatype Fetch = Body(data: IpData) | Failed

  /** `data['status'] == 'success'`, where a missing key raises `KeyError`,
      which `check_ip` catches like any other exception. */
  predicate LookupSucceeded(fetch: Fetch)
  {
    fetch.Body? && "status" in fetch.data && fetch.data["status"] == Text("success")
  }

  /** One entry of `self.results`; `timestamp` is `datetime.now().isoformat()`. */
  datatype Record =
    | IpRecord(target: string, data: IpData, timestamp: string)
    | PhoneRecord(target: string, clean: string, country: Country, timestamp: string)
    | EmailRecord(target: string, localPart: string, domain: string, timestamp: string)
    | UsernameRecord(target: string, foundProfiles: seq<Profile>, timestamp: string)
  {
    /** The 'type' entry. */
    function Kind(): (kind: string)
    {
      match this
      case IpRecord(_, _, _) => "ip"
      case PhoneRecord(_, _, _, _) => "phone"
      case EmailRecord(_, _, _, _) => "email"
      case UsernameRecord(_, _, _) => "username"
    }

    /** What the lookup that appended the record guarantees about it. */
    ghost predicate WellFormed()
    {
      match this
      case IpRecord(_, data, _) => LookupSucceeded(Body(data))
      case PhoneRecord(target, clean, country, _) => clean == Clean(target) && country == DetectCountry(clean)
      case EmailRecord(target, localPart, domain, _) =>
        IsValidEmail(target) && localPart + "@" + domain == target && '@' !in localPart && '@' !in domain
      case UsernameRecord(target, found, _) => IsSubsequence(found, Targets(target))
    }
  }

  datatype PhoneLinks = PhoneLinks(whatsapp: string, telegram: string, vk: string)
  datatype PhoneReport = PhoneReport(cleanPhone: string, country: Country, links: PhoneLinks)
  datatype EmailLinks = EmailLinks(vk: string, telegram: string, github: string)
  datatype EmailReport = EmailReport(localPart: string, domain: string, links: EmailLinks)
  datatype UsernameReport = UsernameReport(username: string, foundProfiles: seq<Profile>)

  /** The JSON object `save_report` writes. */
  datatype Report = Report(tool: string, version: string, sessionId: string, timestamp: string, results: seq<Record>)

  /** An attempt to write `contents` to the file `path`. */
  datatype FileWrite = FileWrite(path: string, contents: Report)

  /** The file name `save_report` uses when given none. */
  function DefaultReportName(sessionId: string): (name: string)
  {
    "white_angel_report_" + sessionId + ".json"
  }

  /** `filename`, unless it is falsy (`None` or the empty string). */
  function ReportName(filename: Option<string>, sessionId: string): (name: string)
    ensures name != ""
    ensures filename.Some? && filename.value != "" ==> name == filename.value
    ensures filename.None? || filename.value == "" ==> name == DefaultReportName(sessionId)
  {
    if filename.None? || filename.value == "" then DefaultReportName(sessionId) else filename.value
  }

  class WhiteAngel {
    const version: string
    const sessionId: string
    var results: seq<Record>

    /** Every record was appended by the lookup of its kind. */
    ghost predicate Valid()
      reads this
    {
      forall k :: 0 <= k < |results| ==> results[k].WellFormed()
    }

    /** `__init__`: `sessionId` stands for `datetime.now().strftime("%Y%m%d_%H%M%S")`. */
    constructor (sessionId: string)
      ensures Valid()
      ensures this.sessionId == sessionId && version == "3.0" && results == []
    {
      this.sessionId := sessionId;
      version := "3.0";
      results := [];
    }

    /** `check_ip`: appends a record and returns the data exactly when the
        reply is a JSON object whose 'status' is 'success'. */
    method CheckIp(ipAddress: string, fetch: Fetch, now: string) returns (data: Option<IpData>)
      requires Valid()
      modifies this
      ensures Valid()
      ensures data.Some? <==> LookupSucceeded(fetch)
      ensures data.Some? ==> data.value == fetch.data
      ensures results == if LookupSucceeded(fetch) then old(results) + [IpRecord(ipAddress, fetch.data, now)] else old(results)
    {
      match fetch
      case Failed =>
        return None;
      case Body(d) =>
        if "status" !in d {
          return None;
        }
        if d["status"] == Text("success") {
          results := results + [IpRecord(ipAddress, d, now)];
          return Some(d);
        } else {
          return None;
        }
    }

    /** `check_phone`: always appends exactly one record. */
    method CheckPhone(phoneNumber: string, now: string) returns (report: PhoneReport)
      requires Valid()
      modifies this
      ensures Valid()
      ensures var clean := Clean(phoneNumber);
        report == PhoneReport(clean, DetectCountry(clean),
          PhoneLinks("https://wa.me/" + clean, "https://t.me/" + clean, "https://vk.com/phone/" + clean))
      ensures results == old(results) + [PhoneRecord(phoneNumber, report.cleanPhone, report.country, now)]
    {
      var cleanPhone := Clean(phoneNumber);
      var countryInfo := DetectCountry(cleanPhone);
      results := results + [PhoneRecord(phoneNumber, cleanPhone, countryInfo, now)];
      report := PhoneReport(cleanPhone, countryInfo,
        PhoneLinks("https://wa.me/" + cleanPhone, "https://t.me/" + cleanPhone, "https://vk.com/phone/" + cleanPhone));
    }

    /** `check_email`: returns `None` and appends nothing when the format
        test fails; otherwise splits the address at its only '@', appends
        one record and returns the links built from the local part. */
    method CheckEmail(emailAddress: string, now: string) returns (report: Option<EmailReport>)
      requires Valid()
      modifies this
      ensures Valid()
      ensures report.None? <==> !IsValidEmail(emailAddress)
      ensures report.None? ==> results == old(results)
      ensures report.Some? ==>
        var r := report.value;
        (r.localPart, r.domain) == SplitEmail(emailAddress)
        && r.localPart + "@" + r.domain == emailAddress && '@' !in r.localPart && '@' !in r.domain
        && r.links == EmailLinks("https://vk.com/" + r.localPart, "https://t.me/" + r.localPart, "https://github.com/" + r.localPart)
        && results == old(results) + [EmailRecord(emailAddress, r.localPart, r.domain, now)]
    {
      if !IsValidEmail(emailAddress) {
        return None;
      }
      var pieces := Split(emailAddress, '@');
      SplitValidEmail(emailAddress);
      SplitPieces(emailAddress, '@');
      var localPart, domain := pieces[0], pieces[1];
      results := results + [EmailRecord(emailAddress, localPart, domain, now)];
      report := Some(EmailReport(localPart, domain,
        EmailLinks("https://vk.com/" + localPart, "https://t.me/" + localPart, "https://github.com/" + localPart)));
    }

    /** `search_username`: probes the seven platforms in order and always
        appends exactly one record, whatever was found. */
    method SearchUsername(username: string, probes: seq<Probe>, now: string) returns (report: UsernameReport)
      requires Valid()
      requires |probes| == |Platforms|
      modifies this
      ensures Valid()
      ensures report == UsernameReport(username, Select(Targets(username), probes))
      ensures results == old(results) + [UsernameRecord(username, report.foundProfiles, now)]
    {
      var found := CollectFound(username, probes);
      SelectIsSubsequence(Targets(username), probes);
      results := results + [UsernameRecord(username, found, now)];
      report := UsernameReport(username, found);
    }

    /** `save_report`: with no records, writes nothing and returns `None`;
        otherwise writes the whole session under the given or default name
        and returns that name when the write succeeds. `writeSucceeds` is the
        outcome of `open` and `json.dump`; `now` the report's timestamp. */
    method SaveReport(filename: Option<string>, writeSucceeds: bool, now: string)
      returns (saved: Option<string>, write: Option<FileWrite>)
      requires Valid()
      ensures results == [] ==> write.None?
      ensures results != [] ==> write == Some(FileWrite(ReportName(filename, sessionId),
        Report("White Angel OSINT", version, sessionId, now, results)))
      ensures saved.Some? <==> results != [] && writeSucceeds
      ensures saved.Some? ==> saved.value == ReportName(filename, sessionId)
      ensures write.Some? ==> forall k :: 0 <= k < |write.value.contents.results| ==>
        write.value.contents.results[k].WellFormed()
    {
      if results == [] {
        return None, None;
      }
      var name := ReportName(filename, sessionId);
      write := Some(FileWrite(name, Report("White Angel OSINT", version, sessionId, now, results)));
      if writeSucceeds {
        saved := Some(name);
      } else {
        saved := None;
      }
    }
  }
}
