/** The decisions `main` takes from its command-line flags: which lookups
    run, whether the report is saved under the given name, whether the
    interactive menu starts and whether the report is saved automatically. */
module Cli {
  import opened Wrappers
  import opened Email
  import opened Username
  import opened Phone
  import opened Session

  /** The parsed flags; an option that was not given is `None`. */
  datatype Arguments = Arguments(
    ip: Option<string>,
    phone: Option<string>,
    email: Option<string>,
    username: Option<string>,
    save: Option<string>,
    interactive: bool)

  /** A flag is acted upon when its value is truthy: given and not empty. */
  predicate Given(flag: Option<string>)
  {
    flag.Some? && flag.value != ""
  }

  /** The test before `run_interactive`: no truthy lookup or save flag, or `-i`. */
  predicate RunsInteractive(args: Arguments)
  {
    !(Given(args.ip) || Given(args.phone) || Given(args.email) || Given(args.username) || Given(args.save))
    || args.interactive
  }

  /** The test before the final `save_report()`: some record exists and `--save` was not truthy. */
  predicate AutoSaves(args: Arguments, results: seq<Record>)
  {
    results != [] && !Given(args.save)
  }

  /** A bare `--save NAME` neither runs the menu nor saves anything on a
      fresh session: the menu test counts `--save` as an action. */
  lemma SaveAloneSkipsMenu(name: string)
    requires name != ""
    ensures !RunsInteractive(Arguments(None, None, None, None, Some(name), false))
    ensures !AutoSaves(Arguments(None, None, None, None, Some(name), false), [])
  {
  }

  /** The record `--ip` appends, if any. */
  function IpRecords(args: Arguments, fetch: Fetch, now: string): (records: seq<Record>)
  {
    if Given(args.ip) && LookupSucceeded(fetch) then [IpRecord(args.ip.value, fetch.data, now)] else []
  }

  /** The record `--phone` appends, if any. */
  function PhoneRecords(args: Arguments, now: string): (records: seq<Record>)
  {
    if Given(args.phone) then
      var clean := Clean(args.phone.value);
      [PhoneRecord(args.phone.value, clean, DetectCountry(clean), now)]
    else []
  }

  /** The record `--email` appends, if any. */
  function EmailRecords(args: Arguments, now: string): (records: seq<Record>)
  {
    if Given(args.email) && IsValidEmail(args.email.value) then
      var (localPart, domain) := SplitEmail(args.email.value);
      [EmailRecord(args.email.value, localPart, domain, now)]
    else []
  }

  /** The record `--username` appends, if any. */
  function UsernameRecords(args: Arguments, probes: seq<Probe>, now: string): (records: seq<Record>)
    requires |probes| == |Platforms|
  {
    if Given(args.username) then
      [UsernameRecord(args.username.value, Select(Targets(args.username.value), probes), now)]
    else []
  }

  /** The flag-driven part of `main`: each truthy lookup flag runs its
      lookup once, in the order ip, phone, email, username; then a truthy
      `--save` writes the report under that name. `fetch`, `probes` and
      `writeSucceeds` are the outcomes of the network and the file write. */
  method RunArguments(tool: WhiteAngel, args: Arguments, fetch: Fetch, probes: seq<Probe>,
                      writeSucceeds: bool, now: string)
    returns (saved: Option<string>, write: Option<FileWrite>)
    requires tool.Valid()
    requires |probes| == |Platforms|
    modifies tool
    ensures tool.Valid()
    ensures tool.results == old(tool.results) + IpRecords(args, fetch, now) + PhoneRecords(args, now)
      + EmailRecords(args, now) + UsernameRecords(args, probes, now)
    ensures !Given(args.save) ==> write.None? && saved.None?
    ensures Given(args.save) && tool.results != [] ==>
      write == Some(FileWrite(args.save.value, Report("White Angel OSINT", tool.version, tool.sessionId, now, tool.results)))
    ensures Given(args.save) && tool.results == [] ==> write.None?
    ensures saved.Some? <==> Given(args.save) && tool.results != [] && writeSucceeds
    ensures saved.Some? ==> saved.value == args.save.value
  {
    ghost var before := tool.results;
    if Given(args.ip) {
      var _ := tool.CheckIp(args.ip.value, fetch, now);
    }
    assert tool.results == before + IpRecords(args, fetch, now);
    ghost var afterIp := tool.results;
    if Given(args.phone) {
      var _ := tool.CheckPhone(args.phone.value, now);
    }
    assert tool.results == afterIp + PhoneRecords(args, now);
    ghost var afterPhone := tool.results;
    if Given(args.email) {
      var _ := tool.CheckEmail(args.email.value, now);
    }
    assert tool.results == afterPhone + EmailRecords(args, now);
    ghost var afterEmail := tool.results;
    if Given(args.username) {
      var _ := tool.SearchUsername(args.username.value, probes, now);
    }
    assert tool.results == afterEmail + UsernameRecords(args, probes, now);
    saved, write := None, None;
    if Given(args.save) {
      saved, write := tool.SaveReport(args.save, writeSucceeds, now);
    }
  }

  /** The whole of `main` after parsing: the flag-driven lookups and the
      save under `--save`, then the interactive menu when `RunsInteractive`,
      then the automatic save under the default name when `AutoSaves`. The
      menu is represented by the records its lookups append, `menuRecords`,
      and by `menuReturns`: whether it returns through choice '6'. An
      interrupt or end of input inside the menu raises out of `main`
      instead, skipping the automatic save. A truthy `--save` writes the
      records of the flags, if there are any, under that name; what the
      menu adds afterwards reaches no file, and at most one of the two
      writes happens. Without a truthy `--save`, and unless the menu was left by an
      exception, every record, the menu's included, is saved automatically. */
  method RunCommandLine(tool: WhiteAngel, args: Arguments, fetch: Fetch, probes: seq<Probe>,
                        menuRecords: seq<Record>, menuReturns: bool, writeSucceeds: bool, now: string)
    returns (flagWrite: Option<FileWrite>, autoWrite: Option<FileWrite>)
    requires tool.Valid()
    requires |probes| == |Platforms|
    requires forall k :: 0 <= k < |menuRecords| ==> menuRecords[k].WellFormed()
    modifies tool
    ensures tool.Valid()
    ensures var flagged := old(tool.results) + IpRecords(args, fetch, now) + PhoneRecords(args, now)
      + EmailRecords(args, now) + UsernameRecords(args, probes, now);
      && tool.results == flagged + (if RunsInteractive(args) then menuRecords else [])
      && flagWrite == (if Given(args.save) && flagged != [] then
           Some(FileWrite(args.save.value, Report("White Angel OSINT", tool.version, tool.sessionId, now, flagged)))
         else None)
    ensures flagWrite.None? || autoWrite.None?
    ensures Given(args.save) ==> autoWrite.None?
    ensures RunsInteractive(args) && !menuReturns ==> autoWrite.None?
    ensures autoWrite.Some? <==> (!RunsInteractive(args) || menuReturns) && AutoSaves(args, tool.results)
    ensures autoWrite.Some? ==>
      autoWrite.value == FileWrite(DefaultReportName(tool.sessionId),
        Report("White Angel OSINT", tool.version, tool.sessionId, now, tool.results))
  {
    var _, write := RunArguments(tool, args, fetch, probes, writeSucceeds, now);
    flagWrite := write;
    ghost var flagged := tool.results;
    if RunsInteractive(args) {
      // `run_interactive`: each menu lookup appends its record.
      tool.results := tool.results + menuRecords;
    }
    autoWrite := None;
    if RunsInteractive(args) && !menuReturns {
      // `KeyboardInterrupt` or `EOFError` leaves `main` through its handler.
      return;
    }
    if AutoSaves(args, tool.results) {
      var _, w := tool.SaveReport(None, writeSucceeds, now);
      autoWrite := w;
    }
  }

  /** `--username testuser123 --save out.json`: the menu does not start,
      out.json receives exactly one record, of kind 'username', for that
      name, and nothing is saved automatically. */
  method UsernameAndSaveScenario(sessionId: string, probes: seq<Probe>, menuRecords: seq<Record>,
                                 menuReturns: bool, now: string)
    requires |probes| == |Platforms|
    requires forall k :: 0 <= k < |menuRecords| ==> menuRecords[k].WellFormed()
  {
    var tool := new WhiteAngel(sessionId);
    var args := Arguments(None, None, None, Some("testuser123"), Some("out.json"), false);
    var write, autoWrite := RunCommandLine(tool, args, Failed, probes, menuRecords, menuReturns, true, now);
    assert !RunsInteractive(args);
    assert |tool.results| == 1;
    assert write.Some? && write.value.path == "out.json";
    assert |write.value.contents.results| == 1;
    var record := write.value.contents.results[0];
    assert record.Kind() == "username" && record.target == "testuser123";
    assert autoWrite.None?;
  }
}
