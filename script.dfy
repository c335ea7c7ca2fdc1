/** The decoded TOML script: `internal.Script` (internal/script.go), `main.Config`
    (config.go) and the pipeline item both of them hold. */
module Scripts {

  /** One `[[pipeline]]` entry. internal/pipeline_item.go and config.go declare the same
      five fields. `action` is free text: only "follow" and "collect" mean anything. */
  datatype PipelineItem = PipelineItem(
    selector: string,
    action: string,
    attribute: string,  // `attr`; "text" selects the element's trimmed text
    column: string,
    visitOnce: bool)

  /** The `[main]` table of internal.Script. It has no random_delay key. */
  datatype ScriptMain = ScriptMain(
    url: string,
    file: string,
    format: string,
    userAgent: string,
    delay: int,
    allowedDomains: seq<string>)

  datatype Script = Script(main: ScriptMain, pipeline: seq<PipelineItem>)

  /** The `[main]` table of main.Config, which adds random_delay. */
  datatype ConfigMain = ConfigMain(
    url: string,
    file: string,
    format: string,
    userAgent: string,
    delay: int,
    randomDelay: int,
    allowedDomains: seq<string>)

  datatype Config = Config(main: ConfigMain, pipeline: seq<PipelineItem>)
}
