/**
 * The validated configuration: every setting must be non-empty, checked in a fixed order,
 * and the first empty one is reported by name.
 */
module Env {
  import opened Wrappers

  /** A named setting, as the error message names it. */
  datatype Setting = Setting(name: string, value: string)

  /** The name of the first empty setting, in the order given; none when all are set. */
  function FirstMissing(settings: seq<Setting>): (r: Option<string>)
    ensures r.None? <==> forall i :: 0 <= i < |settings| ==> settings[i].value != ""
    ensures r.Some? ==>
              exists i :: 0 <= i < |settings| && settings[i].value == "" && settings[i].name == r.value
                          && forall j :: 0 <= j < i ==> settings[j].value != ""
  {
    if settings == [] then None
    else if settings[0].value == "" then Some(settings[0].name)
    else
      var rest := FirstMissing(settings[1..]);
      assert forall i :: 1 <= i < |settings| ==> settings[i] == settings[1..][i - 1];
      rest
  }

  /** The error for an empty setting: `<name> required`. */
  function Required(name: string): string
  {
    name + " required"
  }

  /** The configuration the program runs with. */
  datatype Environment = Environment(gitHubEndpoint: string, gitHubToken: string, repoName: string,
                                     owner: string, metricPrefix: string)

  /** The settings in the order `NewEnvironment` checks them. */
  function CheckOrder(owner: string, repoName: string, githubEndpoint: string, githubToken: string, metricPrefix: string)
    : seq<Setting>
  {
    [Setting("owner", owner), Setting("repoName", repoName), Setting("githubToken", githubToken),
     Setting("githubEndpoint", githubEndpoint), Setting("metricPrefix", metricPrefix)]
  }

  /**
   * Validates the settings: fails with `<name> required` for the first empty one, checking
   * owner, repoName, githubToken, githubEndpoint and metricPrefix in that order; otherwise
   * gives the environment holding exactly the given settings.
   */
  function NewEnvironment(owner: string, repoName: string, githubEndpoint: string, githubToken: string, metricPrefix: string)
    : (r: Result<Environment, string>)
    ensures r.Success? <==> owner != "" && repoName != "" && githubEndpoint != "" && githubToken != "" && metricPrefix != ""
    ensures r.Success? ==>
              r.value.owner == owner && r.value.repoName == repoName && r.value.gitHubEndpoint == githubEndpoint
              && r.value.gitHubToken == githubToken && r.value.metricPrefix == metricPrefix
  {
    if owner == "" then Failure(Required("owner"))
    else if repoName == "" then Failure(Required("repoName"))
    else if githubToken == "" then Failure(Required("githubToken"))
    else if githubEndpoint == "" then Failure(Required("githubEndpoint"))
    else if metricPrefix == "" then Failure(Required("metricPrefix"))
    else Success(Environment(githubEndpoint, githubToken, repoName, owner, metricPrefix))
  }

  /** The error is `<name> required` for exactly the first empty setting in check order. */
  lemma NewEnvironmentNamesFirstMissing(owner: string, repoName: string, githubEndpoint: string, githubToken: string, metricPrefix: string)
    ensures var r := NewEnvironment(owner, repoName, githubEndpoint, githubToken, metricPrefix);
            match FirstMissing(CheckOrder(owner, repoName, githubEndpoint, githubToken, metricPrefix))
            case None => r.Success?
            case Some(name) => r == Failure(Required(name))
  {
    var e := Setting("metricPrefix", metricPrefix);
    var d := Setting("githubEndpoint", githubEndpoint);
    var c := Setting("githubToken", githubToken);
    var b := Setting("repoName", repoName);
    var a := Setting("owner", owner);
    assert CheckOrder(owner, repoName, githubEndpoint, githubToken, metricPrefix) == [a] + ([b] + ([c] + ([d] + [e])));
    FirstMissingCons(e, []);
    FirstMissingCons(d, [e]);
    FirstMissingCons(c, [d] + [e]);
    FirstMissingCons(b, [c] + ([d] + [e]));
    FirstMissingCons(a, [b] + ([c] + ([d] + [e])));
  }

  lemma FirstMissingCons(s: Setting, rest: seq<Setting>)
    ensures FirstMissing([s] + rest) == if s.value == "" then Some(s.name) else FirstMissing(rest)
  {
    assert ([s] + rest)[1..] == rest;
  }
}
