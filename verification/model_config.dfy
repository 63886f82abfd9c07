/** The performance-mode table: each mode ("fast", "pro") maps every media task to the
    fal.ai endpoint that serves it; a configuration holds the current mode and the
    endpoints of that mode. */
module ModelConfig {

  datatype Task = ImageGeneration | VideoGeneration | ImageEdit

  const FastModels: map<Task, string> := map[
    ImageGeneration := "fal-ai/gemini-25-flash-image",
    VideoGeneration := "fal-ai/veo3/fast",
    ImageEdit := "fal-ai/nano-banana/edit"]

  const ProModels: map<Task, string> := map[
    ImageGeneration := "fal-ai/flux-pro/v1.1-ultra",
    VideoGeneration := "fal-ai/veo3",
    ImageEdit := "fal-ai/nano-banana/edit"]

  /** `MODELS`. */
  const Models: map<string, map<Task, string>> := map["fast" := FastModels, "pro" := ProModels]

  /** The object's state: `mode` and `_config`. */
  datatype Config = Config(mode: string, endpoints: map<Task, string>)

  /** `_config` is the table row of `mode`. */
  predicate Consistent(c: Config) {
    && ((c.mode == "fast" && c.endpoints == FastModels) || (c.mode == "pro" && c.endpoints == ProModels))
    && Total(c.endpoints)
  }

  /** A row names an endpoint for every task. */
  predicate Total(row: map<Task, string>) {
    forall t: Task :: t in row
  }

  lemma RowsTotal()
    ensures Total(FastModels) && Total(ProModels)
  {
    forall t: Task
      ensures t in FastModels && t in ProModels
    {
      match t
      case ImageGeneration =>
      case VideoGeneration =>
      case ImageEdit =>
    }
  }

  /** What `set_mode` leaves behind: the new state, or, when the lookup raised
      `KeyError`, the state as it was at that moment. */
  datatype SetOutcome = Switched(config: Config) | KeyError(config: Config)

  /** `ModelConfig(mode)`; a mode outside the table makes the constructor raise. */
  function Init(mode: string): (c: Config)
    requires mode in Models
    ensures Consistent(c) && c.mode == mode
  {
    RowsTotal();
    Config(mode, Models[mode])
  }

  /** The module-level instance. */
  function Default(): (c: Config)
    ensures Consistent(c) && c.mode == "fast"
    ensures c.endpoints[ImageGeneration] == "fal-ai/gemini-25-flash-image"
  {
    Init("fast")
  }

  /** `get_model`: the current mode's endpoint for `task`. The edit endpoint is the same
      in every mode; image and video generation use a different endpoint in each. */
  function GetModel(c: Config, task: Task): (r: string)
    requires Consistent(c)
    ensures r == Models[c.mode][task]
    ensures task == ImageEdit ==> r == "fal-ai/nano-banana/edit"
    ensures task != ImageEdit ==> (r == FastModels[task] <==> c.mode == "fast")
  {
    c.endpoints[task]
  }

  /** `set_mode`. The mode is stored before the table lookup, so a mode outside the
      table raises with the new mode stored and the old endpoints kept. */
  function SetMode(c: Config, mode: string): (r: SetOutcome)
    ensures r.config.mode == mode
    ensures r.Switched? <==> mode in Models
    ensures r.Switched? ==> Consistent(r.config)
    ensures r.KeyError? ==> r.config.endpoints == c.endpoints
  {
    RowsTotal();
    if mode in Models then Switched(Config(mode, Models[mode]))
    else KeyError(c.(mode := mode))
  }

  /** After a successful switch `get_model` answers from the new mode's row for every task,
      whatever the state was before. */
  lemma SetModeThenGet(c: Config, mode: string, task: Task)
    requires mode in Models
    ensures GetModel(SetMode(c, mode).config, task) == Models[mode][task]
  {
  }

  /** Switching twice to the same mode is switching once. */
  lemma SetModeIdempotent(c: Config, mode: string)
    ensures SetMode(SetMode(c, mode).config, mode) == SetMode(c, mode)
  {
  }

  /** A rejected mode leaves the object inconsistent: the stored mode names no table row,
      yet the old endpoints are still served. */
  lemma RejectedModeKeepsOldEndpoints(c: Config, mode: string, task: Task)
    requires Consistent(c) && mode !in Models
    ensures !Consistent(SetMode(c, mode).config)
    ensures SetMode(c, mode).config.endpoints[task] == GetModel(c, task)
  {
  }
}
