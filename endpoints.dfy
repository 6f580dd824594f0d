/** The per-agent endpoint readiness verdict of CiliumEndpointWaitReady and the
    AND over all agents. Each agent reports one `state=identity` line per
    endpoint; an agent is ready when every line is well formed, every state is
    "ready" and no endpoint still has the reserved init identity 5. */
module EndpointReadiness {
  import opened Wrappers
  import opened GoStrings

  const ReadyState: string := "ready"

  /** Numeric id of the reserved:init identity. */
  const InitIdentity: string := "5"

  /** A line is well formed when it splits on '=' into exactly two fields,
      that is, when it holds exactly one '='. */
  predicate WellFormedLine(line: string)
    ensures WellFormedLine(line) <==> CountChar(line, '=') == 1
  {
    |Split(line, '=')| == 2
  }

  /** What a well-formed line adds to the invalid counter: one for a state
      other than "ready", one more for identity 5. */
  function LinePenalty(line: string): nat
    requires WellFormedLine(line)
  {
    var fields := Split(line, '=');
    (if fields[0] != ReadyState then 1 else 0) + (if fields[1] == InitIdentity then 1 else 0)
  }

  /** An empty line is skipped; any other line must be a ready endpoint. */
  ghost predicate LineReady(line: string) {
    line == "" ||
    (WellFormedLine(line) && Split(line, '=')[0] == ReadyState && Split(line, '=')[1] != InitIdentity)
  }

  /** The verdict on one agent's endpoint list, stated line by line. */
  ghost predicate EndpointsReady(text: string) {
    var lines := Split(text, '\n');
    forall i :: 0 <= i < |lines| ==> LineReady(lines[i])
  }

  /** Number of non-empty lines: the `total` counter. */
  function NonEmptyCount(lines: seq<string>): nat {
    if lines == [] then 0
    else NonEmptyCount(lines[..|lines| - 1]) + (if lines[|lines| - 1] != "" then 1 else 0)
  }

  /** Sum of the penalties of the non-empty lines: the `invalid` counter. */
  function InvalidCount(lines: seq<string>): nat
    requires forall i :: 0 <= i < |lines| ==> lines[i] == "" || WellFormedLine(lines[i])
  {
    if lines == [] then 0
    else
      var last := lines[|lines| - 1];
      InvalidCount(lines[..|lines| - 1]) + (if last != "" then LinePenalty(last) else 0)
  }

  /** The invalid counter ends at zero exactly when every line is ready. */
  lemma {:induction false} InvalidCountZero(lines: seq<string>)
    requires forall i :: 0 <= i < |lines| ==> lines[i] == "" || WellFormedLine(lines[i])
    ensures InvalidCount(lines) == 0 <==> forall i :: 0 <= i < |lines| ==> LineReady(lines[i])
  {
    if lines != [] {
      var init := lines[..|lines| - 1];
      assert forall i :: 0 <= i < |init| ==> init[i] == lines[i];
      InvalidCountZero(init);
    }
  }

  /** endpointsReady for one agent. A listing error gives false; a malformed
      line gives false at once; otherwise the counters are accumulated over all
      lines and the agent is ready when no line was invalid. */
  method AgentEndpointsReady(status: Result<string, string>) returns (valid: bool, total: nat, invalid: nat)
    ensures valid <==> status.Success? && EndpointsReady(status.value)
    ensures status.Success? && (forall i :: 0 <= i < |Split(status.value, '\n')| ==>
                                  Split(status.value, '\n')[i] == "" || WellFormedLine(Split(status.value, '\n')[i])) ==>
              total == NonEmptyCount(Split(status.value, '\n')) && invalid == InvalidCount(Split(status.value, '\n'))
  {
    valid, total, invalid := false, 0, 0;
    if status.Failure? {
      return;
    }
    var lines := Split(status.value, '\n');
    for i := 0 to |lines|
      invariant forall j :: 0 <= j < i ==> lines[j] == "" || WellFormedLine(lines[j])
      invariant total == NonEmptyCount(lines[..i])
      invariant invalid == InvalidCount(lines[..i])
    {
      var line := lines[i];
      assert lines[..i + 1][..i] == lines[..i];
      if line == "" {
        continue;
      }
      total := total + 1;
      var vals := Split(line, '=');
      if |vals| != 2 {
        assert !LineReady(lines[i]);
        return;
      }
      if vals[0] != ReadyState {
        invalid := invalid + 1;
      }
      if vals[1] == InitIdentity {
        invalid := invalid + 1;
      }
    }
    assert lines[..|lines|] == lines;
    InvalidCountZero(lines);
    valid := invalid == 0;
  }

  /** The AND of the agents' verdicts, in the order they are read. */
  function AllReady(verdicts: seq<bool>): (r: bool)
    ensures r <==> forall i :: 0 <= i < |verdicts| ==> verdicts[i]
  {
    if verdicts == [] then true else verdicts[0] && AllReady(verdicts[1..])
  }

  /** The agents finish in any order; the aggregate does not depend on it. */
  lemma AllReadyOrderIndependent(a: seq<bool>, b: seq<bool>)
    requires multiset(a) == multiset(b)
    ensures AllReady(a) == AllReady(b)
  {
    assert (false in a) <==> (false in multiset(a));
    assert (false in b) <==> (false in multiset(b));
  }

  /** One round of CiliumEndpointWaitReady with the fan-out run one agent after
      the other: every agent's verdict, then their AND. */
  method EndpointsRound(statuses: seq<Result<string, string>>) returns (ready: bool)
    ensures ready <==> forall i :: 0 <= i < |statuses| ==> statuses[i].Success? && EndpointsReady(statuses[i].value)
  {
    var verdicts: seq<bool> := [];
    for i := 0 to |statuses|
      invariant |verdicts| == i
      invariant forall j :: 0 <= j < i ==> (verdicts[j] <==> statuses[j].Success? && EndpointsReady(statuses[j].value))
    {
      var v, _, _ := AgentEndpointsReady(statuses[i]);
      verdicts := verdicts + [v];
    }
    ready := AllReady(verdicts);
  }
}
