/** Selecting the services to build: the selection is extended with every
    service that a selected one names in its additional build contexts. */
module BuildContexts {
  import opened Collections

  /** `contexts` are the targets of the build's additional contexts, if the service is built. */
  datatype Service = Service(contexts: Option<seq<string>>)

  datatype Project = Project(services: map<string, Service>, disabled: map<string, Service>)

  const SERVICE_PREFIX := "service:"

  /** Enabled services come first; an unknown name is a service without a build. */
  function Lookup(p: Project, name: string): Service {
    if name in p.services then p.services[name]
    else if name in p.disabled then p.disabled[name]
    else Service(None)
  }

  function Targets(p: Project, name: string): seq<string> {
    match Lookup(p, name).contexts
    case None => []
    case Some(ts) => ts
  }

  /** The services that the given one takes build contexts from. */
  function Named(ts: seq<string>): set<string> {
    set k | 0 <= k < |ts| && SERVICE_PREFIX <= ts[k] :: ts[k][|SERVICE_PREFIX|..]
  }

  function Deps(p: Project, name: string): set<string> {
    Named(Targets(p, name))
  }

  /** The project's own entry for a service: enabled services come first. */
  ghost predicate IsService(p: Project, name: string, s: Service) {
    (name in p.services && s == p.services[name])
    || (name !in p.services && name in p.disabled && s == p.disabled[name])
  }

  /** A service depends on another exactly if the project has it, enabled or
      disabled, it is built, and "service:" and the other's name is one of its
      additional contexts. A name the project does not have depends on nothing. */
  lemma DepsExactly(p: Project, name: string, d: string)
    ensures d in Deps(p, name) <==>
              exists s :: IsService(p, name, s) && s.contexts.Some? && (SERVICE_PREFIX + d) in s.contexts.value
  {
    var ts := Targets(p, name);
    forall k | 0 <= k < |ts| && SERVICE_PREFIX <= ts[k]
      ensures ts[k] == SERVICE_PREFIX + ts[k][|SERVICE_PREFIX|..]
    {
    }
    if (SERVICE_PREFIX + d) in ts {
      var k :| 0 <= k < |ts| && ts[k] == SERVICE_PREFIX + d;
      assert ts[k][|SERVICE_PREFIX|..] == d;
    }
    if d in Deps(p, name) {
      assert (SERVICE_PREFIX + d) in ts;
      assert IsService(p, name, Lookup(p, name));
    }
  }

  ghost predicate Closed(p: Project, s: set<string>) {
    forall x :: x in s ==> Deps(p, x) <= s
  }

  /** The least set that contains the selection and is closed under build contexts. */
  ghost predicate IsClosure(p: Project, selection: set<string>, s: set<string>) {
    && selection <= s && Closed(p, s)
    && forall t: set<string> :: selection <= t && Closed(p, t) ==> s <= t
  }

  function Elements(s: seq<string>): set<string> {
    set x | x in s
  }

  ghost predicate Distinct(s: seq<string>) {
    forall i, j :: 0 <= i < j < |s| ==> s[i] != s[j]
  }

  /** One round: the selection and everything it names directly. */
  ghost function Extended(p: Project, s: set<string>): set<string> {
    s + set x, d | x in s && d in Deps(p, x) :: d
  }

  /** Every name that some service of the project mentions. */
  ghost function Mentioned(p: Project): set<string> {
    set x, d | x in p.services.Keys + p.disabled.Keys && d in Deps(p, x) :: d
  }

  lemma {:induction false} ElementsSize(s: seq<string>)
    ensures |Elements(s)| <= |s|
    ensures Distinct(s) ==> |Elements(s)| == |s|
  {
    if s != [] {
      var init, last := s[..|s| - 1], s[|s| - 1];
      ElementsSize(init);
      assert s == init + [last];
      assert Elements(s) == Elements(init) + {last};
    }
  }

  /** The slice of a set, in no particular order. */
  method ToSlice(s: set<string>) returns (r: seq<string>)
    ensures Distinct(r) && Elements(r) == s
  {
    r := [];
    var rest := s;
    while rest != {}
      invariant Distinct(r) && Elements(r) + rest == s && Elements(r) !! rest
      decreases rest
    {
      var x :| x in rest;
      rest := rest - {x};
      assert Elements(r + [x]) == Elements(r) + {x};
      assert forall i :: 0 <= i < |r| ==> r[i] in Elements(r);
      r := r + [x];
    }
  }

  method AddNamed(p: Project, name: string, into: set<string>) returns (r: set<string>)
    ensures r == into + Deps(p, name)
  {
    r := into;
    var ts := Targets(p, name);
    for i := 0 to |ts|
      invariant r == into + Named(ts[..i])
    {
      NamedSnoc(ts, i);
      if SERVICE_PREFIX <= ts[i] {
        r := r + {ts[i][|SERVICE_PREFIX|..]};
      }
    }
    assert ts[..|ts|] == ts;
  }

  lemma NamedSnoc(ts: seq<string>, i: nat)
    requires i < |ts|
    ensures Named(ts[..i + 1])
         == Named(ts[..i]) + if SERVICE_PREFIX <= ts[i] then {ts[i][|SERVICE_PREFIX|..]} else {}
  {
    var a, b := ts[..i], ts[..i + 1];
    assert forall k :: 0 <= k < i ==> a[k] == b[k];
    forall x | x in Named(a)
      ensures x in Named(b)
    {
      var k :| 0 <= k < |a| && SERVICE_PREFIX <= a[k] && x == a[k][|SERVICE_PREFIX|..];
      assert b[k] == a[k];
    }
    if SERVICE_PREFIX <= ts[i] {
      assert b[i][|SERVICE_PREFIX|..] in Named(b);
    }
  }

  /** The loop over the selection. */
  method ExtendOnce(p: Project, selected: seq<string>) returns (all: set<string>)
    ensures all == Extended(p, Elements(selected))
  {
    all := Elements(selected);
    for i := 0 to |selected|
      invariant all == Elements(selected) + set x, d | x in Elements(selected[..i]) && d in Deps(p, x) :: d
    {
      assert selected[..i + 1] == selected[..i] + [selected[i]];
      all := AddNamed(p, selected[i], all);
    }
    assert selected[..|selected|] == selected;
  }

  /** The selection is extended until a round adds nothing. On a selection without
      duplicates the result is the closure; in general it is the closure exactly
      when the first round outgrew the selection's length or was already closed. */
  method IncludeAdditionalContextsServices(p: Project, selected: seq<string>) returns (r: seq<string>)
    ensures Distinct(r)
    ensures Distinct(selected) ==> IsClosure(p, Elements(selected), Elements(r))
    ensures IsClosure(p, Elements(selected), Elements(r))
            <==> |Extended(p, Elements(selected))| > |selected| || Closed(p, Extended(p, Elements(selected)))
    decreases |Mentioned(p) - Elements(selected)|
  {
    var all := ExtendOnce(p, selected);
    ghost var s := Elements(selected);
    ElementsSize(selected);
    r := ToSlice(all);
    if |all| > |selected| {
      RoundGrows(p, s);
      ElementsSize(r);
      assert Elements(r) == Extended(p, s);
      r := IncludeAdditionalContextsServices(p, r);
      ClosureOfRound(p, s, Elements(r));
    } else {
      ClosedRound(p, s);
      if |selected| == |s| {
        FullSubset(s, Extended(p, s));
      }
    }
  }

  /** A round that adds names leaves fewer mentioned names to reach. */
  lemma RoundGrows(p: Project, s: set<string>)
    requires |s| < |Extended(p, s)|
    ensures |Mentioned(p) - Extended(p, s)| < |Mentioned(p) - s|
  {
    var e := Extended(p, s);
    assert e <= s ==> e == s;
    var d :| d in e && d !in s;
    var x :| x in s && d in Deps(p, x);
    assert x in p.services.Keys + p.disabled.Keys;
    assert d in Mentioned(p);
    var less, more := Mentioned(p) - e, Mentioned(p) - s;
    assert less <= more - {d};
    SubsetSize(less, more - {d});
  }

  lemma FullSubset(a: set<string>, b: set<string>)
    requires a <= b && |b| <= |a|
    ensures a == b
  {
    assert b == a + (b - a);
  }

  /** The closure of a round is the closure of the selection it came from. */
  lemma ClosureOfRound(p: Project, s: set<string>, c: set<string>)
    requires IsClosure(p, Extended(p, s), c)
    ensures IsClosure(p, s, c)
  {
    forall t: set<string> | s <= t && Closed(p, t)
      ensures c <= t
    {
      assert Extended(p, s) <= t;
    }
  }

  /** A single round gives the closure exactly when it is closed. */
  lemma ClosedRound(p: Project, s: set<string>)
    ensures IsClosure(p, s, Extended(p, s)) <==> Closed(p, Extended(p, s))
  {
    forall t: set<string> | s <= t && Closed(p, t)
      ensures Extended(p, s) <= t
    {
    }
  }

  lemma OneTarget(t: string)
    requires SERVICE_PREFIX <= t
    ensures Named([t]) == {t[|SERVICE_PREFIX|..]}
  {
    NamedSnoc([t], 0);
    assert [t][..1] == [t] && [t][..0] == [] && Named([]) == {};
  }

  /** With a duplicate in the selection the recursion can stop too early. */
  lemma DuplicatesStopEarly()
    ensures var p := Project(map["a" := Service(Some(["service:b"])), "b" := Service(Some(["service:c"]))], map[]);
            |Extended(p, Elements(["a", "a"]))| == |["a", "a"]|
            && !IsClosure(p, Elements(["a", "a"]), Extended(p, Elements(["a", "a"])))
  {
    var p := Project(map["a" := Service(Some(["service:b"])), "b" := Service(Some(["service:c"]))], map[]);
    assert "service:b"[..8] == SERVICE_PREFIX && "service:c"[..8] == SERVICE_PREFIX;
    assert "service:b"[8..] == "b" && "service:c"[8..] == "c";
    assert Targets(p, "a") == ["service:b"] && Targets(p, "b") == ["service:c"];
    OneTarget("service:b");
    OneTarget("service:c");
    assert Deps(p, "a") == {"b"} && Deps(p, "b") == {"c"};
    assert Elements(["a", "a"]) == {"a"};
    assert Extended(p, {"a"}) == {"a", "b"};
    assert "a" != "b" && "c" != "a" && "c" != "b";
    assert "b" in {"a", "b"} && !(Deps(p, "b") <= {"a", "b"});
    ClosedRound(p, {"a"});
  }
}
