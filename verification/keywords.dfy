/**
  The simple keyword interpreter the console calls (`processCommand` in
  src/utils/mcpCommands.ts). It looks for keywords anywhere in the lower-cased,
  trimmed line, in a fixed priority order, and answers with a canned response.
 */
module Keywords {
  import opened Text
  import opened Responses

  const HelpText :=
    Response("Available commands: status, allocate resources, security scan, network topology, help", Info, NoData)

  /** The fallback: echoes the line exactly as the caller passed it. */
  function NotRecognised(command: string): (r: Response)
    ensures r.status == Warning && r.data == NoData
    ensures "Command not recognized: \"" + command <= r.message
  {
    Response("Command not recognized: \"" + command + "\". Type \"help\" for available commands.", Warning, NoData)
  }

  predicate AsksStatus(key: string) {
    Contains(key, "status") || Contains(key, "health")
  }

  predicate AsksResources(key: string) {
    Contains(key, "allocate") || Contains(key, "resource")
  }

  predicate AsksSecurity(key: string) {
    Contains(key, "security") || Contains(key, "threat")
  }

  predicate AsksNetwork(key: string) {
    Contains(key, "network") || Contains(key, "connect")
  }

  predicate AsksHelp(key: string) {
    key == "help" || key == "?"
  }

  /** `processCommand`: every keyword group wins over all the groups after it, and help needs the
      whole line to be the word. Nothing it answers is an error. */
  function Process(command: string): (r: Response)
    ensures r.status != Error
    ensures var key := Trim(Lower(command));
      && (r == AllSystemsNominal <==> AsksStatus(key))
      && (r == AllocationOptimisedResponse <==> !AsksStatus(key) && AsksResources(key))
      && (r == SecurityActive <==> !AsksStatus(key) && !AsksResources(key) && AsksSecurity(key))
      && (r == TopologyMapped <==>
            !AsksStatus(key) && !AsksResources(key) && !AsksSecurity(key) && AsksNetwork(key))
      && (r == HelpText <==>
            !AsksStatus(key) && !AsksResources(key) && !AsksSecurity(key) && !AsksNetwork(key)
            && AsksHelp(key))
      && (r == NotRecognised(command) <==>
            !AsksStatus(key) && !AsksResources(key) && !AsksSecurity(key) && !AsksNetwork(key)
            && !AsksHelp(key))
  {
    var key := Trim(Lower(command));
    if AsksStatus(key) then AllSystemsNominal
    else if AsksResources(key) then AllocationOptimisedResponse
    else if AsksSecurity(key) then SecurityActive
    else if AsksNetwork(key) then TopologyMapped
    else if AsksHelp(key) then HelpText
    else NotRecognised(command)
  }

  /** Apart from the echo in the fallback message, only `lower(trim(command))` matters. */
  lemma ProcessSeesOnlyNormalForm(c1: string, c2: string)
    requires Lower(Trim(c1)) == Lower(Trim(c2))
    ensures Process(c1) == Process(c2)
            || (Process(c1) == NotRecognised(c1) && Process(c2) == NotRecognised(c2))
  {
    LowerTrimCommute(c1);
    LowerTrimCommute(c2);
  }

  /** The help text answers exactly the bare words `help` and `?`, whatever the case and padding;
      `help me` is not recognised. */
  lemma HelpOnlyForTheBareWord(command: string)
    ensures Process(command) == HelpText <==> Trim(Lower(command)) in {"help", "?"}
  {
    var key := Trim(Lower(command));
  }

  lemma HelpMeIsNotHelp(s: string)
    requires s == "help me"
    ensures Process(s) == NotRecognised(s)
  {
    HelpMeIsNormalised(s);
    HelpMeHasNoKeyword(s);
  }

  lemma HelpMeIsNormalised(s: string)
    requires s == "help me"
    ensures Trim(Lower(s)) == s
  {
    assert Lower(s) == s;
    TrimKeepsUnpadded(s);
  }

  lemma HelpMeHasNoKeyword(s: string)
    requires s == "help me"
    ensures !AsksStatus(s) && !AsksResources(s) && !AsksSecurity(s) && !AsksNetwork(s) && !AsksHelp(s)
  {
    ContainsAt(s, "health");
    assert s[0..6] != "health" by { assert s[2] == 'l'; }
    assert s[1..7] != "health" by { assert s[1] == 'e'; }
    AbsentInitialNotContained(s, "status");
    AbsentInitialNotContained(s, "allocate");
    AbsentInitialNotContained(s, "resource");
    AbsentInitialNotContained(s, "security");
    AbsentInitialNotContained(s, "threat");
    AbsentInitialNotContained(s, "network");
    AbsentInitialNotContained(s, "connect");
  }

  /** A word whose first letter never occurs in a line is not contained in it. */
  lemma {:induction false} AbsentInitialNotContained(s: string, t: string)
    requires |t| > 0 && t[0] !in s
    ensures !Contains(s, t)
    decreases |s|
  {
    if |s| > 0 {
      AbsentInitialNotContained(s[1..], t);
    }
  }
}
