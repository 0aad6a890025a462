/** What the environment override promises, and what adding and removing environments does to the
    environments of a project. */
module Override {
  import opened Collections
  import opened Tables
  import opened Steps
  import opened Invariants

  /** The environments an override turns off: those that are on and not asked for. */
  function TurnedOff(db: Db, names: seq<string>): set<string> {
    set e | e in db.environments && db.environments[e].enabled && e !in names
  }

  /** The environments an override turns on: those that are off and asked for. */
  function TurnedOn(db: Db, names: seq<string>): set<string> {
    set e | e in db.environments && !db.environments[e].enabled && e in names
  }

  lemma SwitchedAreExact(db: Db, names: seq<string>)
    ensures NewlyDisabled(db, names) == TurnedOff(db, names) && NewlyEnabled(db, names) == TurnedOn(db, names)
  {
  }

  /** The length comparison passes exactly when the requested names are distinct and all exist. */
  lemma LengthCheckIsExact(db: Db, names: seq<string>)
    ensures |RequestedEnvironments(db, names)| == |names| <==>
            Distinct(names) && forall n <- names :: n in db.environments
  {
    ElementsCount(names);
    SubsetCount(RequestedEnvironments(db, names), Elements(names));
    if forall n <- names :: n in db.environments {
      assert RequestedEnvironments(db, names) == Elements(names);
    }
  }

  /** The project is linked to an environment that the override turns off. */
  ghost predicate LosesLink(db: Db, names: seq<string>, project: string) {
    exists l :: l in db.projectEnvs && l.project == project && l.environment in TurnedOff(db, names)
  }

  /** The override takes the toggle's environment away: its project was linked to it and it is turned off. */
  predicate TakesAway(db: Db, names: seq<string>, l: FeatureEnv) {
    && l.feature in db.features && l.environment in TurnedOff(db, names)
    && ProjectEnv(db.features[l.feature].project, l.environment) in db.projectEnvs
  }

  /** The override gives the toggle an environment: its project lost a link and is new in this one. */
  ghost predicate Gives(db: Db, names: seq<string>, l: FeatureEnv) {
    && l.feature in db.features && l.environment in TurnedOn(db, names)
    && LosesLink(db, names, db.features[l.feature].project)
    && ProjectEnv(db.features[l.feature].project, l.environment) !in db.projectEnvs
  }

  lemma OverrideTasks(db: Db, names: seq<string>)
    ensures var db0 := SetEnabled(SetEnabled(db, TurnedOff(db, names), false), TurnedOn(db, names), true);
            forall l :: l in LinkTasks(LinksTo(db0, TurnedOff(db, names)), TurnedOn(db, names)) <==>
                        l.environment in TurnedOn(db, names) && LosesLink(db, names, l.project)
  {
    var db0 := SetEnabled(SetEnabled(db, TurnedOff(db, names), false), TurnedOn(db, names), true);
    var unlinked := LinksTo(db0, TurnedOff(db, names));
    forall l: ProjectEnv | l.environment in TurnedOn(db, names) && LosesLink(db, names, l.project)
      ensures l in LinkTasks(unlinked, TurnedOn(db, names))
    {
      var m :| m in db.projectEnvs && m.project == l.project && m.environment in TurnedOff(db, names);
      assert m in unlinked && l == ProjectEnv(m.project, l.environment);
    }
  }

  /** The toggle rows after the override: the old ones it does not take away with their flags, and those it
      gives, which are off. */
  lemma OverrideMovesToggles(db: Db, names: seq<string>)
    requires names != [] && Distinct(names) && forall n <- names :: n in db.environments
    ensures var r := OverrideEnabledProjects(db, names).db;
            forall l :: (l in r.featureEnvs <==> (l in db.featureEnvs && !TakesAway(db, names, l)) || Gives(db, names, l))
                     && (l in r.featureEnvs ==> r.featureEnvs[l] == (l in db.featureEnvs && db.featureEnvs[l]))
  {
    SwitchedAreExact(db, names);
    LengthCheckIsExact(db, names);
    OverrideTasks(db, names);
    var disable, enable := TurnedOff(db, names), TurnedOn(db, names);
    var db0 := SetEnabled(SetEnabled(db, disable, false), enable, true);
    var unlinked := LinksTo(db0, disable);
    var gone := FeatureEnvsOf(db0, unlinked);
    var added := FeatureEnvsOf(Unlink(db0, unlinked), LinkTasks(unlinked, enable) - Unlink(db0, unlinked).projectEnvs);
    forall l
      ensures l in gone <==> TakesAway(db, names, l)
      ensures l in added <==> Gives(db, names, l)
    {
      if TakesAway(db, names, l) {
        assert ProjectEnv(db.features[l.feature].project, l.environment) in unlinked;
        assert l == FeatureEnv(l.feature, l.environment);
      }
      if Gives(db, names, l) {
        var m := ProjectEnv(db.features[l.feature].project, l.environment);
        assert m in LinkTasks(unlinked, enable) - Unlink(db0, unlinked).projectEnvs;
        assert l == FeatureEnv(l.feature, m.environment);
      }
    }
  }

  /** An override whose names check out enables exactly those environments and moves the links of projects and
      toggles; every other table stays. */
  lemma OverrideIsExact(db: Db, names: seq<string>)
    requires names != [] && Distinct(names) && forall n <- names :: n in db.environments
    ensures var r := OverrideEnabledProjects(db, names).db;
            && r.environments.Keys == db.environments.Keys
            && (forall e <- r.environments ::
                  r.environments[e] == db.environments[e].(enabled := e in names))
            && (forall l :: l in r.projectEnvs <==>
                              || (l in db.projectEnvs && l.environment !in TurnedOff(db, names))
                              || (l.environment in TurnedOn(db, names) && LosesLink(db, names, l.project)))
            && (forall l :: l in r.featureEnvs <==>
                              (l in db.featureEnvs && !TakesAway(db, names, l)) || Gives(db, names, l))
            && (forall l <- r.featureEnvs :: r.featureEnvs[l] == (l in db.featureEnvs && db.featureEnvs[l]))
            && r == db.(environments := r.environments, projectEnvs := r.projectEnvs, featureEnvs := r.featureEnvs)
  {
    SwitchedAreExact(db, names);
    LengthCheckIsExact(db, names);
    OverrideTasks(db, names);
    OverrideMovesToggles(db, names);
  }

  /** An override whose names do not check out changes nothing. */
  lemma OverrideOtherwiseIgnored(db: Db, names: seq<string>)
    requires names == [] || !Distinct(names) || exists n :: n in names && n !in db.environments
    ensures OverrideEnabledProjects(db, names) == Step(db, Done)
  {
    SwitchedAreExact(db, names);
    LengthCheckIsExact(db, names);
  }

  /** The links after an override: none to an environment it turned off, and every project that lost
      one has all those it turned on. */
  lemma OverrideMovesLinks(db: Db, names: seq<string>, project: string)
    requires names != [] && Distinct(names) && forall n <- names :: n in db.environments
    ensures var r := OverrideEnabledProjects(db, names).db;
            && ProjectEnvironments(r, project) !! TurnedOff(db, names)
            && (LosesLink(db, names, project) ==> TurnedOn(db, names) <= ProjectEnvironments(r, project))
            && (!LosesLink(db, names, project) ==>
                  ProjectEnvironments(r, project) == ProjectEnvironments(db, project))
  {
    SwitchedAreExact(db, names);
    OverrideIsExact(db, names);
  }

  /** The override reports an error exactly when a project that lost a link already had one to a
      newly enabled environment; the links are moved in both cases. */
  lemma OverrideReportsExistingLink(db: Db, names: seq<string>)
    requires names != [] && Distinct(names) && forall n <- names :: n in db.environments
    ensures var r := OverrideEnabledProjects(db, names);
            && (r.outcome == Done || r.outcome == Failed(NameExists))
            && (r.outcome == Failed(NameExists) <==>
                exists l :: l in db.projectEnvs && l.environment in TurnedOn(db, names) &&
                            LosesLink(db, names, l.project))
  {
    SwitchedAreExact(db, names);
    LengthCheckIsExact(db, names);
    var disable, enable := TurnedOff(db, names), TurnedOn(db, names);
    var db0 := SetEnabled(SetEnabled(db, disable, false), enable, true);
    var unlinked := LinksTo(db0, disable);
    var tasks := LinkTasks(unlinked, enable);
    var left := Unlink(db0, unlinked).projectEnvs;
    if l :| l in db.projectEnvs && l.environment in enable && LosesLink(db, names, l.project) {
      var m :| m in db.projectEnvs && m.project == l.project && m.environment in disable;
      assert m in unlinked && ProjectEnv(m.project, l.environment) in tasks;
    }
  }

  // ---------- At least one environment ----------

  /** Removing an environment never takes a project's last one. */
  lemma RemoveKeepsOneEnvironment(db: Db, environment: string, project: string, other: string)
    requires Integrity(db) && ProjectEnvironments(db, other) != {}
    ensures ProjectEnvironments(RemoveEnvironmentFromProject(db, environment, project).db, other) != {}
  {
    var r := RemoveEnvironmentFromProject(db, environment, project);
    var listed := ListedEnvironments(db, project);
    if r.outcome == Done && other == project {
      assert listed - {environment} != {} by {
        assert |listed - {environment}| >= |listed| - 1;
      }
    }
  }

  /** An override that is carried out leaves a project without environments exactly when all its
      links go to environments that are turned off and none is turned on. */
  lemma OverrideKeepsOneEnvironmentIff(db: Db, names: seq<string>, project: string)
    requires names != [] && Distinct(names) && forall n <- names :: n in db.environments
    requires ProjectEnvironments(db, project) != {}
    ensures ProjectEnvironments(OverrideEnabledProjects(db, names).db, project) == {} <==>
            && TurnedOn(db, names) == {}
            && ProjectEnvironments(db, project) <= TurnedOff(db, names)
  {
    SwitchedAreExact(db, names);
    OverrideIsExact(db, names);
  }

  // ---------- Conditions the code does not establish ----------

  /** One project linked to two environments, with one toggle enabled in the first by one strategy. */
  function OneToggle(on: string, off: string): Db {
    var env := Environment("development", 1, true, false);
    Db(map[on := env, off := env],
       map["p" := "P"],
       {ProjectEnv("p", on), ProjectEnv("p", off)},
       map["t" := Feature("p", false, FeatureData("", "release", "epic", false, false, map[]))],
       map[FeatureEnv("t", on) := true, FeatureEnv("t", off) := false],
       map["s" := Strategy("t", "p", on, StrategyConfig("default", [], map[], 0))],
       map[], {}, map[], {}, {})
  }

  lemma OneToggleIsConsistent(on: string, off: string)
    requires on != off
    ensures Inv(OneToggle(on, off)) && EnabledHasStrategy(OneToggle(on, off))
    ensures StrategiesIn(OneToggle(on, off), "t", on) == {"s"}
  {
    assert "s" in StrategiesIn(OneToggle(on, off), "t", on);
  }

  /** Deleting a strategy under the name of another environment can leave its toggle enabled with no
      strategy. */
  lemma DeletionUnderAnotherEnvironment()
    ensures Inv(OneToggle("dev", "prod")) && EnabledHasStrategy(OneToggle("dev", "prod"))
    ensures !EnabledHasStrategy(DeleteStrategy(OneToggle("dev", "prod"), "s", Context("t", "p", "prod")).db)
  {
    var on, off := "dev", "prod";
    assert |on| != |off|;
    OneToggleIsConsistent(on, off);
  }

  /** A created strategy is one the toggle shows exactly when its project has the environment; the
      call itself only asks that the environment exists. */
  lemma CreatedStrategyIsListedIff(db: Db, id: string, config: StrategyConfig, ctx: Context)
    requires Inv(db) && id !in db.strategies
    requires ctx.feature in db.features && db.features[ctx.feature].project == ctx.project
    ensures var r := CreateStrategy(db, id, config, ctx);
            && (r.outcome == Done <==> ctx.environment in db.environments)
            && (id in ListedStrategies(r.db, ctx.feature) <==> ProjectEnv(ctx.project, ctx.environment) in db.projectEnvs)
  {
  }

  /** One project without toggles and two environments. */
  function OneProject(links: set<ProjectEnv>, devOn: bool, prodOn: bool): Db {
    Db(map["dev" := Environment("development", 1, devOn, false), "prod" := Environment("production", 2, prodOn, false)],
       map["p" := "P"], links, map[], map[], map[], map[], {}, map[], {}, {})
  }

  lemma NamesDiffer()
    ensures "dev" != "prod"
  {
    assert |"dev"| != |"prod"|;
  }

  lemma AskingForProd(links: set<ProjectEnv>, devOn: bool, prodOn: bool)
    ensures var db := OneProject(links, devOn, prodOn);
            && TurnedOff(db, ["prod"]) == (if devOn then {"dev"} else {})
            && TurnedOn(db, ["prod"]) == (if prodOn then {} else {"prod"})
  {
    NamesDiffer();
  }

  /** Asking for an environment that is already on takes a project its only one. */
  lemma OverrideTakesLastEnvironment()
    ensures var db := OneProject({ProjectEnv("p", "dev")}, true, true);
            && Inv(db) && ProjectEnvironments(db, "p") != {}
            && ProjectEnvironments(OverrideEnabledProjects(db, ["prod"]).db, "p") == {}
  {
    var db := OneProject({ProjectEnv("p", "dev")}, true, true);
    AskingForProd({ProjectEnv("p", "dev")}, true, true);
    assert "dev" in ProjectEnvironments(db, "p");
    OverrideKeepsOneEnvironmentIff(db, ["prod"], "p");
  }

  /** One project linked to both environments, of which only the first is on. */
  function BothLinked(): Db {
    OneProject({ProjectEnv("p", "dev"), ProjectEnv("p", "prod")}, true, false)
  }

  lemma OnlyPLosesItsLink(project: string)
    ensures LosesLink(BothLinked(), ["prod"], project) <==> project == "p"
  {
    AskingForProd({ProjectEnv("p", "dev"), ProjectEnv("p", "prod")}, true, false);
    NamesDiffer();
    assert ProjectEnv("p", "dev") in BothLinked().projectEnvs;
  }

  lemma LinksAreMoved()
    ensures OverrideEnabledProjects(BothLinked(), ["prod"]).db.projectEnvs == {ProjectEnv("p", "prod")}
  {
    var db := BothLinked();
    AskingForProd({ProjectEnv("p", "dev"), ProjectEnv("p", "prod")}, true, false);
    OverrideIsExact(db, ["prod"]);
    forall l
      ensures l in OverrideEnabledProjects(db, ["prod"]).db.projectEnvs <==> l == ProjectEnv("p", "prod")
    {
      OnlyPLosesItsLink(l.project);
      NamesDiffer();
    }
  }

  /** An override can report a failure although it has moved the links. */
  lemma OverrideFailsWithLinksMoved()
    ensures Inv(BothLinked())
    ensures var r := OverrideEnabledProjects(BothLinked(), ["prod"]);
            r.outcome == Failed(NameExists) && r.db.projectEnvs == {ProjectEnv("p", "prod")}
  {
    LinksAreMoved();
    AskingForProd({ProjectEnv("p", "dev"), ProjectEnv("p", "prod")}, true, false);
    OnlyPLosesItsLink("p");
    assert ProjectEnv("p", "prod") in BothLinked().projectEnvs;
    OverrideReportsExistingLink(BothLinked(), ["prod"]);
  }

  /** A strategy created in an environment its project does not have is stored and not shown. */
  lemma CreatedStrategyIsHidden()
    ensures var db := OneToggle("dev", "prod").(projectEnvs := {ProjectEnv("p", "dev")}, featureEnvs := map[FeatureEnv("t", "dev") := true]);
            var r := CreateStrategy(db, "hidden", StrategyConfig("default", [], map[], 0), Context("t", "p", "prod"));
            && Inv(db) && r.outcome == Done && "hidden" in r.db.strategies && "hidden" !in ListedStrategies(r.db, "t")
  {
    NamesDiffer();
    var db := OneToggle("dev", "prod").(projectEnvs := {ProjectEnv("p", "dev")}, featureEnvs := map[FeatureEnv("t", "dev") := true]);
    assert |"hidden"| != |"s"|;
    CreatedStrategyIsListedIff(db, "hidden", StrategyConfig("default", [], map[], 0), Context("t", "p", "prod"));
  }
}
