/**
 * The specialist table of the tour agents. Only the key set of
 * `get_all_agents()` matters to the pipeline; the agent objects behind the
 * keys are external and appear in the model as the `Specialist` role.
 */
module Agents {

  /** Keys of `get_all_agents()`, in the dict's order. */
  const SpecialistKeys: seq<string> := ["Architecture", "History", "Culinary", "Culture"]

  /** `interest in get_all_agents()`. */
  predicate HasSpecialist(interest: string) {
    interest in SpecialistKeys
  }
}
