/** Small string helpers of the kubectl wrapper: splitting the pod-name
    output, completing a kube-dns query name to a service FQDN, and adding a
    default Helm option unless the caller already set that field. */
module KubectlStrings {
  import opened GoStrings

  /** The pod names in the output of the jsonpath query: newlines trimmed from
      both ends, then space-separated names. An output that is empty after
      trimming gives no names (splitting it would give one empty name). */
  function PodNamesFromOutput(stdout: string): (names: seq<string>)
    ensures names == [] <==> Trim(stdout, '\n') == []
    ensures forall i :: 0 <= i < |names| ==> ' ' !in names[i]
    ensures names != [] ==> Join(names, ' ') == Trim(stdout, '\n')
  {
    var out := Trim(stdout, '\n');
    if |out| == 0 then []
    else
      JoinSplit(out, ' ');
      Split(out, ' ')
  }

  /** A list of names without spaces, printed space-separated and with
      surrounding newlines, is read back unchanged. */
  lemma PodNamesRoundTrip(names: seq<string>, leading: nat, trailing: nat)
    requires names != [] && names != [""]
    requires forall i :: 0 <= i < |names| ==> ' ' !in names[i] && '\n' !in names[i]
    ensures PodNamesFromOutput(Repeat('\n', leading) + Join(names, ' ') + Repeat('\n', trailing)) == names
  {
    var body := Join(names, ' ');
    JoinNoNewline(names);
    JoinNonEmpty(names);
    TrimPadded(body, '\n', leading, trailing);
    SplitJoin(names, ' ');
  }

  /** `n` copies of `c`. */
  function Repeat(c: char, n: nat): (r: string)
    ensures |r| == n && forall i :: 0 <= i < n ==> r[i] == c
  {
    if n == 0 then [] else [c] + Repeat(c, n - 1)
  }

  lemma {:induction false} JoinNoNewline(names: seq<string>)
    requires forall i :: 0 <= i < |names| ==> '\n' !in names[i]
    ensures '\n' !in Join(names, ' ')
  {
    if |names| > 1 {
      JoinNoNewline(names[1..]);
    }
  }

  lemma {:induction false} JoinNonEmpty(names: seq<string>)
    requires names != [] && names != [""]
    ensures Join(names, ' ') != []
  {
    if |names| > 1 {
      assert |Join(names, ' ')| >= |names[0] + [' ']|;
    }
  }

  /** Trimming `c` from a string padded with `c` on both ends gives the
      string back when it neither starts nor ends with `c`. */
  lemma {:induction false} TrimPadded(s: string, c: char, leading: nat, trailing: nat)
    requires s != [] && s[0] != c && s[|s| - 1] != c
    ensures Trim(Repeat(c, leading) + s + Repeat(c, trailing), c) == s
  {
    var padded := Repeat(c, leading) + s + Repeat(c, trailing);
    TrimLeftPadded(s + Repeat(c, trailing), c, leading);
    assert padded == Repeat(c, leading) + (s + Repeat(c, trailing));
    TrimRightPadded(s, c, trailing);
  }

  lemma {:induction false} TrimLeftPadded(s: string, c: char, n: nat)
    requires s != [] && s[0] != c
    ensures TrimLeft(Repeat(c, n) + s, c) == s
  {
    var p := Repeat(c, n) + s;
    var r := TrimLeft(p, c);
    var dropped := |p| - |r|;
    assert p[n] == s[0];
    assert dropped == n;
    assert r == p[n..] == s;
  }

  lemma {:induction false} TrimRightPadded(s: string, c: char, n: nat)
    requires s != [] && s[|s| - 1] != c
    ensures TrimRight(s + Repeat(c, n), c) == s
  {
    if n > 0 {
      var t := s + Repeat(c, n);
      assert t[..|t| - 1] == s + Repeat(c, n - 1);
      TrimRightPadded(s, c, n - 1);
    }
  }

  /** The cluster-local service domain kube-dns serves. */
  const SvcSuffix: string := "svc.cluster.local"

  /** Completes a query name to a service FQDN: appends "." and the service
      domain unless the name already ends with it. */
  function WithSvcSuffix(name: string): (r: string)
    ensures HasSuffix(r, SvcSuffix)
    ensures HasPrefix(r, name)
    ensures HasSuffix(name, SvcSuffix) ==> r == name
    ensures !HasSuffix(name, SvcSuffix) ==> r == name + "." + SvcSuffix
  {
    if HasSuffix(name, SvcSuffix) then name else name + "." + SvcSuffix
  }

  /** The name WaitForKubeDNSEntry queries for `serviceName` in `serviceNamespace`. */
  function KubeDNSName(serviceName: string, serviceNamespace: string): (r: string)
    ensures HasPrefix(r, serviceName + "." + serviceNamespace)
    ensures HasSuffix(r, SvcSuffix)
    ensures r == WithSvcSuffix(serviceName + "." + serviceNamespace)
    ensures !HasSuffix(serviceName + "." + serviceNamespace, SvcSuffix) ==>
              r == serviceName + "." + serviceNamespace + "." + SvcSuffix
  {
    WithSvcSuffix(serviceName + "." + serviceNamespace)
  }

  /** Completing an already completed name changes nothing. */
  lemma WithSvcSuffixIdempotent(name: string)
    ensures WithSvcSuffix(WithSvcSuffix(name)) == WithSvcSuffix(name)
  {
  }

  /** Some option already sets `field`: it starts with "--set " and the field.
      Any option whose field merely begins with `field` counts too. */
  predicate Overwritten(options: seq<string>, field: string) {
    exists i :: 0 <= i < |options| && HasPrefix(options[i], "--set " + field)
  }

  /** The option list addIfNotOverwritten returns: the caller's options, plus
      at most the one default option, after which the field counts as set. */
  function WithDefault(options: seq<string>, field: string, value: string): (r: seq<string>)
    ensures options <= r && |r| <= |options| + 1
    ensures r == options <==> Overwritten(options, field)
    ensures |r| == |options| + 1 ==> r[|options|] == "--set " + field + "=" + value
    ensures Overwritten(r, field)
  {
    var added := "--set " + field + "=" + value;
    assert HasPrefix(added, "--set " + field) by {
      assert added[..|"--set " + field|] == "--set " + field;
    }
    assert (options + [added])[|options|] == added;
    if Overwritten(options, field) then options else options + ["--set " + field + "=" + value]
  }

  /** addIfNotOverwritten: scans the options for one that already sets the
      field and otherwise appends "--set field=value". */
  method AddIfNotOverwritten(options: seq<string>, field: string, value: string) returns (r: seq<string>)
    ensures r == WithDefault(options, field, value)
  {
    for i := 0 to |options|
      invariant forall j :: 0 <= j < i ==> !HasPrefix(options[j], "--set " + field)
    {
      if HasPrefix(options[i], "--set " + field) {
        return options;
      }
    }
    r := options + ["--set " + field + "=" + value];
  }

  /** After a default is added for a field, that field counts as set, so a
      second default for it (whatever its value) changes nothing. */
  lemma WithDefaultIdempotent(options: seq<string>, field: string, value: string, value': string)
    ensures WithDefault(WithDefault(options, field, value), field, value') == WithDefault(options, field, value)
  {
  }

  /** The field test is a prefix test: an option for a longer field that
      starts with `field` also keeps the default for `field` from being added. */
  lemma LongerFieldCountsAsSet(field: string, suffix: string, v: string, value: string)
    ensures WithDefault(["--set " + field + suffix + "=" + v], field, value) == ["--set " + field + suffix + "=" + v]
  {
    var o := "--set " + field + suffix + "=" + v;
    assert o[..|"--set " + field|] == "--set " + field;
    assert HasPrefix(["--set " + field + suffix + "=" + v][0], "--set " + field);
  }
}
