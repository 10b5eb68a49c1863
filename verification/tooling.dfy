/** The job parameter records (`src/job/types.ts`). */
module Tooling {
  import opened Results

  datatype Tool = Tool(id: real, name: string, diameter: real)

  /** A tool with its cutting parameters; `stepover` is optional. */
  datatype ToolController = ToolController(
    tool: Tool, feedrate: real, spindleSpeed: real, stepdown: real, stepover: Option<real>)

  datatype ProbeParams = ProbeParams(feedrate: real, maxTravel: real)

  datatype MachineParams = MachineParams(
    feedrate: real, rapidFeedrate: real, safeHeight: real, probe: ProbeParams)
}
