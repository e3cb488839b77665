/** The configured sync rules the handlers consult, destinations kept as opaque names. */
module Rules {
  /** Regular expression search: the submatches of a text, whole match first; none when it does not match. */
  type Submatch = (string, string) -> seq<string>

  datatype WorkflowRules = WorkflowRules(actors: seq<string>, artifacts: map<string, seq<string>>)

  datatype RepositoryRules = RepositoryRules(
    containers: map<string, seq<string>>,
    releases: map<string, map<string, seq<string>>>,
    workflows: map<string, WorkflowRules>)

  type Repositories = map<string, RepositoryRules>

  /** The first captured group, or the given fallback when the pattern captures nothing. */
  function Captured(matches: seq<string>, fallback: string): string {
    if |matches| > 1 then matches[1] else fallback
  }
}
