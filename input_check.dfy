/**
  check_file and check_domain, the argument converters of the `csr` sub-command.

  The filesystem enters only through `stats`: `stats(p)` holds when `os.stat(p)` on the
  string `p` returns without raising. Nothing else about the file (its size, its kind)
  reaches the result, because the size comparison in check_file is computed and dropped.
*/
module InputCheck {

  import opened Optional
  import DomainPattern

  /** What check_file is handed: a path string, or (from main) a set holding one. */
  datatype StatArgument = PathString(path: string) | PathSet(paths: set<string>)

  /**
    check_file: the argument itself when `os.stat` succeeds on it, and None (Python's
    False) when `os.stat` raises. An existing empty file is accepted: its size is compared
    with 1 and the comparison is discarded. `os.stat` rejects a set with a TypeError, which the bare
    `except` turns into False like any other error.
  */
  function CheckFile(arg: StatArgument, stats: string -> bool): (r: Option<StatArgument>)
    ensures r.Some? <==> arg.PathString? && stats(arg.path)
    ensures r.Some? ==> r.value == arg
  {
    match arg
    case PathString(p) => if stats(p) then Some(arg) else None
    case PathSet(_) => None
  }

  /**
    Python truthiness of check_file's result: False is falsy, and so is a returned path
    that is the empty string; a non-empty set would be truthy.
  */
  predicate Truthy(r: Option<StatArgument>) {
    match r
    case None => false
    case Some(PathString(p)) => p != ""
    case Some(PathSet(ps)) => ps != {}
  }

  /** check_domain's two successful returns: the tuple `(input, True)`, or `input` itself. */
  datatype DomainArgument = PathFlagged(input: string) | Literal(input: string)

  /**
    The exception check_domain raises. It calls argparse.ArgumentError with one argument
    where two are needed, so what surfaces is a TypeError, which argparse reports as an
    invalid value of the `-d` option.
  */
  datatype DomainError = UnrecognisedInput(input: string)

  datatype Result<T, E> = Ok(value: T) | Err(error: E)

  /**
    check_domain, case by case: an input on which `os.stat` succeeds comes back flagged as
    a path; otherwise an input the host-name pattern accepts comes back unchanged (no case
    folding, no trimming); anything else is an error.
  */
  function CheckDomain(input: string, stats: string -> bool): (r: Result<DomainArgument, DomainError>)
    ensures r == Ok(PathFlagged(input)) <==> stats(input) && input != ""
    ensures r == Ok(Literal(input)) <==> !(stats(input) && input != "") && DomainPattern.Matches(input)
    ensures r.Err? <==> !(stats(input) && input != "") && !DomainPattern.Matches(input)
    ensures r.Ok? ==> r.value.input == input
  {
    if Truthy(CheckFile(PathString(input), stats)) then Ok(PathFlagged(input))
    else if DomainPattern.Matches(input) then Ok(Literal(input))
    else Err(UnrecognisedInput(input))
  }

  /**
    When nothing exists at the input, acceptance is exactly the host-name grammar, read
    on the input less one final newline; the input is returned as given.
  */
  lemma LiteralDomainIff(input: string, stats: string -> bool)
    requires !stats(input)
    ensures CheckDomain(input, stats).Ok? <==>
      DomainPattern.WellFormedName(DomainPattern.DropFinalNewline(input))
    ensures CheckDomain(input, stats).Ok? ==> CheckDomain(input, stats) == Ok(Literal(input))
  {
    DomainPattern.MatchesIff(input);
  }

  /** Upper case is neither rejected nor folded: "Example.COM" comes back as it was. */
  lemma MixedCaseKept(stats: string -> bool)
    requires !stats("Example.COM")
    ensures CheckDomain("Example.COM", stats) == Ok(Literal("Example.COM"))
  {
    DomainPattern.DottedMatches(["Example", "COM"], false);
    assert DomainPattern.Dotted(["Example", "COM"], false) == "Example.COM";
  }
}
