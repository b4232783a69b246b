/** Which client an entry of the wizard's list is said to come from: the first one with a service
    of the same key. */
module Origins {
  import opened Wrappers
  import opened Scan
  import opened Launch
  import Merge
  import Text

  function Pair(key: string, value: string): string {
    key + "=" + value
  }

  ghost function Pairs(env: map<string, string>, keys: seq<string>): seq<string>
    requires forall i :: 0 <= i < |keys| ==> keys[i] in env
  {
    seq(|keys|, i requires 0 <= i < |keys| => Pair(keys[i], env[keys[i]]))
  }

  /** `env_signature` */
  ghost function EnvSignature(env: Option<map<string, string>>): string {
    match env
    case None => ""
    case Some(vars) =>
      Text.SortedEnumerates(vars.Keys);
      JoinAll(Pairs(vars, Text.Sorted(vars.Keys)), ",")
  }

  /** `svc_key` */
  ghost function KeyOf(svc: Service): string {
    svc.command + "|" + JoinAll(svc.args, " ") + "|" + EnvSignature(svc.env)
  }

  /** The host of the first service with this key. */
  ghost function FirstWith(all: seq<Variant>, key: string): Option<Host> {
    if all == [] then None
    else
      var before, last := FirstWith(all[..|all| - 1], key), all[|all| - 1];
      if before.Some? then before else if KeyOf(last.service) == key then Some(last.host) else None
  }

  // ----- as it is programmed

  lemma NextPair(vars: map<string, string>, done: seq<string>, rest: set<string>, key: string)
    requires RemainingNames(done, rest, vars.Keys) && Text.Least(key, rest)
    requires forall i :: 0 <= i < |done| ==> done[i] in vars
    ensures RemainingNames(done + [key], rest - {key}, vars.Keys) && key in vars
    ensures Pairs(vars, done + [key]) == Pairs(vars, done) + [Pair(key, vars[key])]
  {
    NextName(done, rest, vars.Keys, key);
  }

  method Signature(env: Option<map<string, string>>) returns (s: string)
    ensures s == EnvSignature(env)
  {
    if env.None? { return ""; }
    var vars := env.value;
    var rest, parts := vars.Keys, [];
    ghost var done := [];
    while rest != {}
      invariant RemainingNames(done, rest, vars.Keys)
      invariant forall i :: 0 <= i < |done| ==> done[i] in vars
      invariant parts == Pairs(vars, done)
      decreases |rest|
    {
      var key := FirstKey(rest);
      NextPair(vars, done, rest, key);
      done := done + [key];
      parts := parts + [Pair(key, vars[key])];
      rest := rest - {key};
    }
    assert done + [] == done;
    s := JoinAll(parts, ",");
  }

  method ServiceKey(svc: Service) returns (key: string)
    ensures key == KeyOf(svc)
  {
    var signature := Signature(svc.env);
    key := svc.command + "|" + JoinAll(svc.args, " ") + "|" + signature;
  }

  /** The index holds the first host of every key. */
  ghost predicate Indexes(index: map<string, Host>, seen: seq<Variant>) {
    forall key :: (if key in index then Some(index[key]) else None) == FirstWith(seen, key)
  }

  lemma IndexNext(index: map<string, Host>, seen: seq<Variant>, v: Variant)
    requires Indexes(index, seen)
    ensures Indexes(if KeyOf(v.service) in index then index else index[KeyOf(v.service) := v.host], seen + [v])
  {
    hide KeyOf;
    assert (seen + [v])[..|seen|] == seen;
    assert FirstWith(seen, KeyOf(v.service)) ==
           if KeyOf(v.service) in index then Some(index[KeyOf(v.service)]) else None;
  }

  /** The first services of one scan. */
  function FoundIn(scan: ScanResult, n: nat): seq<Variant>
    requires n <= |scan.services|
  {
    seq(n, k requires 0 <= k < n => Variant(scan.host, scan.services[k]))
  }

  method IndexScan(index: map<string, Host>, scan: ScanResult, ghost seen: seq<Variant>)
    returns (more: map<string, Host>)
    requires Indexes(index, seen)
    ensures Indexes(more, seen + FoundIn(scan, |scan.services|))
  {
    hide Indexes, KeyOf;
    more := index;
    ghost var done: seq<Variant> := [];
    assert seen + done == seen;
    var j := 0;
    while j < |scan.services|
      invariant 0 <= j <= |scan.services|
      invariant done == FoundIn(scan, j)
      invariant Indexes(more, seen + done)
    {
      var v := Variant(scan.host, scan.services[j]);
      var key := ServiceKey(v.service);
      IndexNext(more, seen + done, v);
      assert seen + done + [v] == seen + (done + [v]);
      if key !in more { more := more[key := v.host]; }
      done := done + [v];
      j := j + 1;
    }
  }

  /** The index at the head of `build_services_from_scans`. */
  method OriginIndex(scans: seq<ScanResult>) returns (index: map<string, Host>)
    ensures Indexes(index, All(scans))
  {
    index := map[];
    var i := 0;
    while i < |scans|
      invariant 0 <= i <= |scans| && Indexes(index, All(scans[..i]))
    {
      assert scans[..i + 1][..i] == scans[..i];
      index := IndexScan(index, scans[i], All(scans[..i]));
      assert All(scans[..i + 1]) == All(scans[..i]) + FoundIn(scans[i], |scans[i].services|);
      i := i + 1;
    }
    assert scans[..i] == scans;
  }

  // ----- what the origin means

  /** The host is that of a service with this key, and no service before it has the key. */
  ghost predicate IsFirstWith(all: seq<Variant>, key: string, i: nat) {
    i < |all| && KeyOf(all[i].service) == key && forall j :: 0 <= j < i ==> KeyOf(all[j].service) != key
  }

  lemma {:induction false} FirstWithIff(all: seq<Variant>, key: string)
    ensures FirstWith(all, key).None? <==> forall i :: 0 <= i < |all| ==> KeyOf(all[i].service) != key
    ensures FirstWith(all, key).Some? ==>
      exists i: nat :: IsFirstWith(all, key, i) && FirstWith(all, key) == Some(all[i].host)
  {
    hide KeyOf;
    if all != [] {
      var init, last := all[..|all| - 1], all[|all| - 1];
      FirstWithIff(init, key);
      if FirstWith(init, key).Some? {
        var i: nat :| IsFirstWith(init, key, i) && FirstWith(init, key) == Some(init[i].host);
        assert IsFirstWith(all, key, i) && all[i] == init[i];
      } else if KeyOf(last.service) == key {
        assert forall i :: 0 <= i < |init| ==> init[i] == all[i];
        assert IsFirstWith(all, key, |init|);
      }
    }
  }

  lemma SameKey(a: Service, b: Service)
    requires Alike(a, b)
    ensures KeyOf(a) == KeyOf(b)
  {
  }

  lemma SomeScanned(scans: seq<ScanResult>, o: Output) returns (v: Variant)
    requires o in Merged(scans)
    ensures v in All(scans) && Alike(o.service, v.service)
  {
    hide Merged, All, Alike;
    Merge.MergeIsPartition(scans);
    assert Merge.Genuine(o, All(scans));
    v :| v in All(scans) && Merge.Represents(o, v);
  }

  /** Every merged service has an origin: the host of the first scanned service with its key. */
  lemma EveryServiceHasAnOrigin(scans: seq<ScanResult>, o: Output)
    requires o in Merged(scans)
    ensures var all, key := All(scans), KeyOf(o.service);
      exists i: nat :: IsFirstWith(all, key, i) && FirstWith(all, key) == Some(all[i].host)
  {
    hide KeyOf, Merged, All, FirstWith, IsFirstWith, Alike, Merge.Represented, Merge.ClassesApart;
    var all := All(scans);
    var v := SomeScanned(scans, o);
    SameKey(o.service, v.service);
    var i :| 0 <= i < |all| && all[i] == v;
    FirstWithIff(all, KeyOf(o.service));
  }

  // ----- an origin that is wrong

  function Running(name: string, args: seq<string>): Service {
    Service(name, "x", args, None, None, None, None)
  }

  const CURSOR := Host(Cursor, "~/.cursor/mcp.json")
  const GEMINI := Host(Gemini, "~/.gemini/settings.json")

  /** Arguments are joined by spaces, so that different ones can make the same key, and a service
      of one client is said to come from another. */
  lemma OriginCanBeWrong()
    ensures var all := [Variant(CURSOR, Running("a", ["p q"])), Variant(GEMINI, Running("b", ["p", "q"]))];
      FirstWith(all, KeyOf(all[1].service)) == Some(CURSOR)
  {
    var a, b := Variant(CURSOR, Running("a", ["p q"])), Variant(GEMINI, Running("b", ["p", "q"]));
    assert JoinAll(["p", "q"], " ") == "p" + " " + JoinAll(["q"], " ") by { assert ["p", "q"][1..] == ["q"]; }
    assert JoinAll(["p", "q"], " ") == "p q" == JoinAll(["p q"], " ");
    assert KeyOf(a.service) == KeyOf(b.service);
    hide KeyOf;
    assert [a, b][..1] == [a] && [a][..0] == [];
    assert FirstWith([a], KeyOf(a.service)) == Some(CURSOR);
  }

  lemma TwoPairs()
    ensures EnvSignature(Some(map["A" := "1", "B" := "2"])) == "A=1,B=2"
  {
    var env := map["A" := "1", "B" := "2"];
    assert Text.Before("A", "B");
    Merge.SortedPair("A", "B");
    assert env.Keys == {"A", "B"};
    assert "A" + "=" + "1" == "A=1" && "B" + "=" + "2" == "B=2";
    var pairs := Pairs(env, ["A", "B"]);
    assert pairs[0] == "A=1" && pairs[1] == "B=2" && pairs[1..] == ["B=2"];
    assert "A=1" + "," + "B=2" == "A=1,B=2";
  }

  /** What a key looks like. */
  lemma KeyExample()
    ensures KeyOf(Service("s", "x", ["p", "q"], None, None, Some(map["A" := "1", "B" := "2"]), None)) == "x|p q|A=1,B=2"
  {
    TwoPairs();
    hide EnvSignature;
    assert ["p", "q"][1..] == ["q"] && "p" + " " + "q" == "p q";
    assert "x" + "|" + "p q" + "|" + "A=1,B=2" == "x|p q|A=1,B=2";
  }
}
