/**
  `main`: what one invocation of the script does once its arguments are parsed.

  The directory listing becomes `dirNames`, `os.stat` becomes `stats`, and the printed
  messages, `exit()` calls and the profile file write become the `Outcome` values.
  `gen_csr` only prints a line, so reaching it is itself the outcome.
*/
module CsrGen {

  import opened Optional
  import InputCheck
  import ProfileTemplate
  import ConfigSearch

  /** The two sub-commands as `main` sees them; `-d` and `-k` are consumed while parsing. */
  datatype Command =
    | Csr(orgOption: Option<string>)
    | Config(country: Option<string>, locality: Option<string>, state: Option<string>, org: string)

  datatype Outcome =
    | NoConfigFound                              // "No config files found ...", then exit
    | AskForOrg                                  // "Please specify Organization name ...", then exit
    | GenerateCsr                                // gen_csr is reached
    | NothingDone                                // main returns without doing anything
    | ProfileWritten(fileName: string, text: string)
    | InvalidDomain                              // argparse rejects the -d value

  /** `if args.org:` is Python truthiness: an absent or empty organisation is false. */
  predicate OrgGiven(org: Option<string>) {
    org.Some? && org.value != ""
  }

  /**
    `config` always writes a profile and `csr` never does; `csr` stops for want of a
    profile exactly when none is found, and reaches gen_csr exactly when one is found.
  */
  function Main(cmd: Command, dirNames: seq<string>, stats: string -> bool): (r: Outcome)
    ensures r != InvalidDomain
    ensures r.ProfileWritten? <==> cmd.Config?
    ensures cmd.Csr? ==> (r == NoConfigFound <==> |ConfigSearch.ProfileNames(dirNames)| == 0)
    ensures cmd.Csr? ==> (r == GenerateCsr <==> |ConfigSearch.ProfileNames(dirNames)| == 1)
  {
    match cmd
    case Csr(org) =>
      var found := ConfigSearch.ProfileNames(dirNames);
      if |found| == 0 then NoConfigFound
      else if |found| > 1 then
        if OrgGiven(org) then
          var arg := InputCheck.PathSet({ConfigSearch.ProfileFileName(org.value)});
          if InputCheck.Truthy(InputCheck.CheckFile(arg, stats)) then GenerateCsr else NothingDone
        else AskForOrg
      else GenerateCsr
    case Config(c, l, s, org) =>
      ProfileWritten(
        ConfigSearch.ProfileFileName(org),
        ProfileTemplate.RenderProfile(c, l, s, Some(org)))
  }

  /**
    The profile search of the `csr` sub-command, by the number of profile names found:
    none stops with the "no config" message; one reaches gen_csr; several without an
    organisation stop asking for `-o`; several with an organisation do nothing, on any
    filesystem, because check_file is handed a set, on which `os.stat` always raises.
  */
  lemma CsrResolution(org: Option<string>, dirNames: seq<string>, stats: string -> bool)
    ensures var n := |ConfigSearch.ProfileNames(dirNames)|;
      Main(Csr(org), dirNames, stats) ==
        if n == 0 then NoConfigFound
        else if n == 1 then GenerateCsr
        else if OrgGiven(org) then NothingDone
        else AskForOrg
  {
  }

  /** With more than one profile, gen_csr is never reached, whatever exists on disk. */
  lemma AmbiguousNeverGenerates(org: Option<string>, dirNames: seq<string>, stats: string -> bool)
    requires |ConfigSearch.ProfileNames(dirNames)| > 1
    ensures Main(Csr(org), dirNames, stats) != GenerateCsr
    ensures Main(Csr(org), dirNames, stats) == Main(Csr(org), dirNames, _ => true)
  {
  }

  /**
    The `config` sub-command writes `org + "_gen_config"`: a name the profile search finds,
    from which the organisation is recovered, holding a rendered profile whose last
    distinguished-name entry is O with the organisation's value.
  */
  lemma ConfigWritesProfile(c: Option<string>, l: Option<string>, s: Option<string>, org: string,
                            dirNames: seq<string>, stats: string -> bool)
    ensures var out := Main(Config(c, l, s, org), dirNames, stats);
      && out.ProfileWritten?
      && ConfigSearch.IsProfileName(out.fileName)
      && ConfigSearch.OrgOf(out.fileName) == org
      && out.text == ProfileTemplate.RenderProfile(c, l, s, Some(org))
    ensures var es := ProfileTemplate.DnEntries(c, l, s, Some(org));
      |es| > 0 && es[|es| - 1] == ProfileTemplate.DnEntry(ProfileTemplate.O, org)
  {
    ProfileTemplate.OrgEntryLast(c, l, s, org);
  }

  /**
    In a directory without profiles, once `config` has written its file, `csr` reaches
    gen_csr, with or without `-o`.
  */
  lemma ConfigThenCsr(c: Option<string>, l: Option<string>, s: Option<string>, org: string,
                      csrOrg: Option<string>, dirNames: seq<string>, stats: string -> bool)
    requires ConfigSearch.ProfileNames(dirNames) == []
    ensures var written := Main(Config(c, l, s, org), dirNames, stats).fileName;
      Main(Csr(csrOrg), dirNames + [written], stats) == GenerateCsr
  {
    var written := ConfigSearch.ProfileFileName(org);
    ConfigSearch.ProfileNamesAppend(dirNames, [written]);
    assert ConfigSearch.ProfileNames([written]) == [written] by {
      assert ConfigSearch.ProfileNames([written][1..]) == [];
    }
  }

  /**
    A second organisation's profile makes the search ambiguous: afterwards `csr` asks for
    `-o` when none is given, and does nothing when one is.
  */
  lemma SecondProfileAmbiguous(org: string, dirNames: seq<string>, csrOrg: Option<string>,
                               stats: string -> bool)
    requires |ConfigSearch.ProfileNames(dirNames)| == 1
    requires ConfigSearch.ProfileFileName(org) !in dirNames
    ensures var names := dirNames + [ConfigSearch.ProfileFileName(org)];
      Main(Csr(csrOrg), names, stats) == if OrgGiven(csrOrg) then NothingDone else AskForOrg
  {
    var written := ConfigSearch.ProfileFileName(org);
    var names := dirNames + [written];
    ConfigSearch.ProfileNamesAppend(dirNames, [written]);
    assert ConfigSearch.ProfileNames([written]) == [written] by {
      assert ConfigSearch.ProfileNames([written][1..]) == [];
    }
    assert |ConfigSearch.ProfileNames(names)| == 2;
    CsrResolution(csrOrg, names, stats);
  }

  /**
    A `csr` invocation: argparse first converts `-d` with check_domain, and a rejected value
    ends the run; otherwise `main` runs, and the domain plays no further part.
  */
  function CsrInvocation(domain: string, org: Option<string>, dirNames: seq<string>, stats: string -> bool): (r: Outcome)
    ensures r == InvalidDomain <==> InputCheck.CheckDomain(domain, stats).Err?
    ensures InputCheck.CheckDomain(domain, stats).Ok? ==> r == Main(Csr(org), dirNames, stats)
  {
    if InputCheck.CheckDomain(domain, stats).Err? then InvalidDomain
    else Main(Csr(org), dirNames, stats)
  }

  /** Any two accepted `-d` values lead to the same outcome. */
  lemma DomainUnused(d1: string, d2: string, org: Option<string>, dirNames: seq<string>, stats: string -> bool)
    requires InputCheck.CheckDomain(d1, stats).Ok? && InputCheck.CheckDomain(d2, stats).Ok?
    ensures CsrInvocation(d1, org, dirNames, stats) == CsrInvocation(d2, org, dirNames, stats)
    ensures CsrInvocation(d1, org, dirNames, stats) != InvalidDomain
  {
  }
}
