/**
  The shared result of evaluating one command line: a message, one of four statuses, and a
  payload. The source's free-form `data` object is narrowed to one tagged variant per canned
  payload; wall-clock timestamps are dropped and the float `92.7` is left implicit in its tag.
 */
module Responses {
  import opened Options
  import opened Text

  datatype Status = Success | Warning | Error | Info

  /** The "Did you mean:" block attached to an unrecognised command. */
  datatype SuggestionBlock = SuggestionBlock(text: string, commands: seq<string>)

  datatype MacroSummary = MacroSummary(name: string, commandCount: nat)

  datatype CategoryGroup = CategoryGroup(name: string, commands: seq<string>)

  datatype Payload =
    | NoData
    | SystemOverview(cpu: int, memory: int, networkLoad: int, security: string)
    | NetworkHealth(state: string, throughput: string, latency: string, activeNodes: int)
    | SecurityHealth(state: string, threatLevel: string, activeProtocols: int, lastBreach: string)
    | ResourceLevels(cpu: int, memory: int, storage: int, quantum: int)
    | Allocation(resource: string, amount: ParsedInt)
    | AllocationOptimised
    | ScanReport(vulnerabilities: int)
    | ThreatReport(threatLevel: string, factors: seq<string>)
    | SecurityOverview(threatLevel: string, networkScan: string, endpointsScan: string, quantumScan: string)
    | RoutesOptimised(improvement: string)
    | TopologyView(nodes: int, connections: int)
    | NetworkOverview(nodes: int, connections: int, bandwidth: string)
    | RecordingStarted(macroName: string)
    | RecordingStopped
    | MacroExecuted(commandCount: int)
    | MacroListing(macros: seq<MacroSummary>)
    | CommandHelp(command: string, description: string, usage: string, examples: seq<string>, aliases: seq<string>)
    | CategoryListing(groups: seq<CategoryGroup>, tip: string)
    | Unrecognised(suggestions: Option<SuggestionBlock>)

  datatype Response = Response(message: string, status: Status, data: Payload)

  /** The four canned responses both interpreters share. */
  const AllSystemsNominal :=
    Response("All MCP systems operating within normal parameters.", Success,
             SystemOverview(24, 42, 78, "optimal"))

  const AllocationOptimisedResponse :=
    Response("Resource allocation optimized based on current workloads.", Success, AllocationOptimised)

  const SecurityActive :=
    Response("Security systems active. No immediate threats detected.", Info,
             SecurityOverview("low", "secure", "monitored", "stable"))

  const TopologyMapped :=
    Response("Network topology mapped and optimized.", Success, NetworkOverview(42, 128, "10.4 TB/s"))
}
