/** The service calls, statement by statement, proved against Steps. */
module Services {
  import opened Collections
  import opened Tables
  import opened Stores
  import Steps
  import Clone
  import Invariants
  import Exceptions

  /** Two lists have the same items: equal sizes without repeats, then membership one way. */
  function ArraysHaveSameItems(a: seq<string>, b: seq<string>): (r: bool)
    ensures r <==> forall x :: x in a <==> x in b
  {
    var setA, setB := Elements(a), Elements(b);
    if |setA| != |setB| then
      assert exists x :: (x in setA && x !in setB) || (x in setB && x !in setA) by {
        assert setA != setB;
      }
      false
    else if forall x <- setA :: x in setB then
      SubsetCount(setA, setB);
      true
    else
      false
  }

  // ---------- Environments ----------

  lemma WithFeatureEnvsTwice(rows: map<FeatureEnv, bool>, a: set<FeatureEnv>, b: set<FeatureEnv>)
    ensures Steps.WithFeatureEnvs(Steps.WithFeatureEnvs(rows, a), b) == Steps.WithFeatureEnvs(rows, a + b)
  {
  }

  lemma FeatureEnvsOfOneMore(db: Db, links: set<ProjectEnv>, l: ProjectEnv)
    ensures Steps.FeatureEnvsOf(db, links + {l}) ==
            Steps.FeatureEnvsOf(db, links) +
            set f | f in Steps.ProjectFeatures(db, l.project) :: FeatureEnv(f, l.environment)
  {
  }

  lemma LinkExisting(db: Db, links: set<ProjectEnv>, l: ProjectEnv)
    requires l in db.projectEnvs
    ensures Steps.Link(db, links + {l}) == Steps.Link(db, links)
  {
    assert links + {l} - db.projectEnvs == links - db.projectEnvs;
  }

  lemma LinkNew(db: Db, links: set<ProjectEnv>, l: ProjectEnv)
    requires l !in db.projectEnvs && l !in links
    ensures var before := Steps.Link(db, links);
            Steps.Link(db, links + {l}) ==
            Steps.ConnectFeatures(before.(projectEnvs := before.projectEnvs + {l}), l.environment, l.project)
  {
    var added := links - db.projectEnvs;
    var rows := set f | f in Steps.ProjectFeatures(db, l.project) :: FeatureEnv(f, l.environment);
    assert links + {l} - db.projectEnvs == added + {l};
    assert db.projectEnvs + (links + {l}) == db.projectEnvs + links + {l};
    FeatureEnvsOfOneMore(db, added, l);
    WithFeatureEnvsTwice(db.featureEnvs, Steps.FeatureEnvsOf(db, added), rows);
    var before := Steps.Link(db, links);
    assert Steps.ProjectFeatures(before.(projectEnvs := before.projectEnvs + {l}), l.project) ==
           Steps.ProjectFeatures(db, l.project);
  }

  /** Linking one more pair is one more call of AddEnvironmentToProject. */
  lemma LinkOneMore(db: Db, links: set<ProjectEnv>, l: ProjectEnv)
    requires l.project in db.projects && l.environment in db.environments && l !in links
    ensures Steps.AddEnvironmentToProject(Steps.Link(db, links), l.environment, l.project) ==
            Step(Steps.Link(db, links + {l}), if l in db.projectEnvs then Failed(NameExists) else Done)
  {
    if l in db.projectEnvs {
      LinkExisting(db, links, l);
    } else {
      LinkNew(db, links, l);
    }
  }

  /** Unlinking one more pair is one more forced removal. */
  lemma UnlinkOneMore(db: Db, links: set<ProjectEnv>, l: ProjectEnv)
    ensures Steps.ForceRemoveEnvironmentFromProject(Steps.Unlink(db, links), l.environment, l.project) ==
            Steps.Unlink(db, links + {l})
  {
  }

  lemma LinkNothing(db: Db)
    ensures Steps.Link(db, {}) == db && Steps.Unlink(db, {}) == db
  {
  }

  class EnvironmentService {
    const db: Database

    constructor (db: Database)
      ensures this.db == db
    {
      this.db := db;
    }

    method ToggleEnvironment(name: string, value: bool) returns (o: Outcome)
      modifies db
      ensures Step(db.State(), o) == Steps.ToggleEnvironment(old(db.State()), name, value)
    {
      if name !in db.environments {
        return Failed(NotFound);
      }
      if !db.environments[name].isProtected {
        db.environments := db.environments[name := db.environments[name].(enabled := value)];
      }
      return Done;
    }

    method AddEnvironmentToProject(environment: string, project: string) returns (o: Outcome)
      modifies db
      ensures Step(db.State(), o) == Steps.AddEnvironmentToProject(old(db.State()), environment, project)
    {
      o := db.ConnectProject(environment, project);
      match o {
        case Done => db.ConnectFeatures(environment, project);
        case Failed(e) => o := Failed(if e == UniqueViolation then NameExists else e);
      }
    }

    method ForceRemoveEnvironmentFromProject(environment: string, project: string)
      modifies db
      ensures db.State() == Steps.ForceRemoveEnvironmentFromProject(old(db.State()), environment, project)
    {
      db.DisconnectFeatures(environment, project);
      db.DisconnectProject(environment, project);
    }

    method RemoveEnvironmentFromProject(environment: string, project: string) returns (o: Outcome)
      modifies db
      ensures Step(db.State(), o) == Steps.RemoveEnvironmentFromProject(old(db.State()), environment, project)
    {
      var projectEnvs := Steps.ListedEnvironments(db.State(), project);
      if |projectEnvs| > 1 {
        ForceRemoveEnvironmentFromProject(environment, project);
        return Done;
      }
      return Failed(MinimumOneEnvironment);
    }

    method UnlinkAll(links: set<ProjectEnv>)
      modifies db
      ensures db.State() == Steps.Unlink(old(db.State()), links)
    {
      var pending := links;
      ghost var finished, was := {}, db.State();
      LinkNothing(was);
      while pending != {}
        invariant finished + pending == links
        invariant db.State() == Steps.Unlink(was, finished)
        decreases pending
      {
        var l :| l in pending;
        UnlinkOneMore(was, finished, l);
        ForceRemoveEnvironmentFromProject(l.environment, l.project);
        pending, finished := pending - {l}, finished + {l};
      }
      assert finished == links;
    }

    /** Every task runs, also after one of them has failed. */
    method LinkAll(links: set<ProjectEnv>) returns (o: Outcome)
      requires Integrity(db.State())
      requires forall l <- links :: l.project in db.projects && l.environment in db.environments
      modifies db
      ensures db.State() == Steps.Link(old(db.State()), links)
      ensures o == if links !! old(db.projectEnvs) then Done else Failed(NameExists)
    {
      var pending := links;
      ghost var finished, was := {}, db.State();
      LinkNothing(was);
      o := Done;
      while pending != {}
        invariant finished + pending == links && finished !! pending
        invariant db.State() == Steps.Link(was, finished)
        invariant o == if finished !! was.projectEnvs then Done else Failed(NameExists)
        decreases pending
      {
        var l :| l in pending;
        LinkOneMore(was, finished, l);
        var r := AddEnvironmentToProject(l.environment, l.project);
        if r.Failed? {
          o := r;
        }
        pending, finished := pending - {l}, finished + {l};
      }
      assert finished == links;
    }

    method RemapProjectLinks(toDisable: set<string>, toEnable: set<string>) returns (o: Outcome)
      requires Integrity(db.State()) && toEnable <= db.environments.Keys
      modifies db
      ensures Step(db.State(), o) == Steps.RemapProjectLinks(old(db.State()), toDisable, toEnable)
    {
      var links := Steps.LinksTo(db.State(), toDisable);
      UnlinkAll(links);
      o := LinkAll(Steps.LinkTasks(links, toEnable));
    }

    method OverrideEnabledProjects(names: seq<string>) returns (o: Outcome)
      requires Integrity(db.State())
      modifies db
      ensures Step(db.State(), o) == Steps.OverrideEnabledProjects(old(db.State()), names)
    {
      if |names| == 0 {
        return Done;
      }
      var existing := Steps.RequestedEnvironments(db.State(), names);
      if |existing| != |names| {
        return Done;
      }
      var notEnabled := set e | e in existing && !db.environments[e].enabled;
      var toDisable := set e | e in db.environments && e !in names && db.environments[e].enabled;
      db.SetEnabled(toDisable, false);
      db.SetEnabled(notEnabled, true);
      o := RemapProjectLinks(toDisable, notEnabled);
    }
  }

  // ---------- Toggles ----------

  class FeatureToggleService {
    const db: Database
    const strategySegmentsLimit: nat

    constructor (db: Database, limit: nat)
      ensures this.db == db && strategySegmentsLimit == limit
    {
      this.db := db;
      strategySegmentsLimit := limit;
    }

    method CreateFeatureToggle(project: string, name: string, archived: bool, data: FeatureData) returns (o: Outcome)
      modifies db
      ensures Step(db.State(), o) == Steps.CreateToggle(old(db.State()), project, name, archived, data)
    {
      if name in db.features {
        return Failed(NameExists);
      }
      if project !in db.projects {
        return Failed(NotFound);
      }
      db.features := db.features[name := Feature(project, archived, data)];
      db.ConnectFeatureToEnvironmentsForProject(name, project);
      return Done;
    }

    method UpdateFeatureToggle(project: string, name: string, archived: bool, data: FeatureData) returns (o: Outcome)
      modifies db
      ensures Step(db.State(), o) == Steps.UpdateToggle(old(db.State()), project, name, archived, data)
    {
      if name !in db.features || db.features[name].project != project {
        return Failed(InvalidOperation);
      }
      db.features := db.features[name := Feature(project, archived, data)];
      return Done;
    }

    method ArchiveToggle(name: string) returns (o: Outcome)
      modifies db
      ensures Step(db.State(), o) == Steps.SetArchived(old(db.State()), name, true)
    {
      if name !in db.features {
        return Failed(NotFound);
      }
      db.features := db.features[name := db.features[name].(archived := true)];
      return Done;
    }

    method ReviveToggle(name: string) returns (o: Outcome)
      modifies db
      ensures Step(db.State(), o) == Steps.SetArchived(old(db.State()), name, false)
    {
      if name !in db.features {
        return Failed(NotFound);
      }
      db.features := db.features[name := db.features[name].(archived := false)];
      return Done;
    }

    method DeleteFeature(name: string) returns (o: Outcome)
      modifies db
      ensures Step(db.State(), o) == Steps.DeleteFeature(old(db.State()), name)
    {
      if name !in db.features {
        return Failed(NotFound);
      }
      db.DeleteFeature(name);
      return Done;
    }

    method UpdateEnabled(project: string, feature: string, environment: string, enabled: bool) returns (o: Outcome)
      modifies db
      ensures Step(db.State(), o) == Steps.UpdateEnabled(old(db.State()), project, feature, environment, enabled)
    {
      if FeatureEnv(feature, environment) !in db.featureEnvs {
        return Failed(NotFound);
      }
      if enabled {
        var found := set id | id in StrategiesIn(db.State(), feature, environment) && db.strategies[id].project == project;
        if found == {} {
          assert forall id <- StrategiesIn(db.State(), feature, environment) :: id !in found;
          return Failed(InvalidOperation);
        }
        assert exists id :: id in found;
      }
      var updated := db.SetEnvironmentEnabledStatus(environment, feature, enabled);
      return Done;
    }

    /** The toggle alone; its strategies keep their project. */
    method ChangeProject(feature: string, newProject: string) returns (o: Outcome)
      modifies db
      ensures o == if feature in old(db.features) then Done else Failed(NotFound)
      ensures db.State() == if o != Done then old(db.State()) else old(db.State()).(
                features := old(db.features)[feature := old(db.features)[feature].(project := newProject)])
    {
      if feature !in db.features {
        return Failed(NotFound);
      }
      o := Done;
      db.features := db.features[feature := db.features[feature].(project := newProject)];
    }

    method CreateStrategy(id: string, config: StrategyConfig, ctx: Steps.Context) returns (o: Outcome)
      modifies db
      ensures Step(db.State(), o) == Steps.CreateStrategy(old(db.State()), id, config, ctx)
    {
      if ctx.feature !in db.features || db.features[ctx.feature].project != ctx.project {
        return Failed(InvalidOperation);
      }
      o := db.InsertStrategy(id, Strategy(ctx.feature, ctx.project, ctx.environment, config));
      if o == Failed(ForeignKeyViolation) {
        return Failed(BadData);
      }
    }

    method UpdateStrategy(id: string, u: Steps.StrategyUpdate, ctx: Steps.Context) returns (o: Outcome)
      modifies db
      ensures Step(db.State(), o) == Steps.UpdateStrategy(old(db.State()), id, u, ctx)
    {
      if id !in db.strategies {
        return Failed(NotFound);
      }
      var s := db.strategies[id];
      if !Steps.ContextMatches(s, ctx) {
        return Failed(InvalidOperation);
      }
      db.strategies := db.strategies[id := s.(config := Steps.Updated(s.config, u))];
      return Done;
    }

    method DeleteStrategy(id: string, ctx: Steps.Context) returns (o: Outcome)
      modifies db
      ensures Step(db.State(), o) == Steps.DeleteStrategy(old(db.State()), id, ctx)
    {
      if id !in db.strategies {
        return Failed(NotFound);
      }
      if !Steps.ContextMatches(db.strategies[id], ctx) {
        return Failed(InvalidOperation);
      }
      db.DeleteStrategies({id});
      db.DisableEnvironmentIfNoStrategies(ctx.feature, ctx.environment);
      return Done;
    }

    method RemoveAllStrategiesForEnv(feature: string, environment: string)
      modifies db
      ensures db.State() == Exceptions.RemoveAllStrategiesForEnv(old(db.State()), feature, environment)
    {
      db.DeleteStrategies(StrategiesIn(db.State(), feature, environment));
    }

    method DeleteEnvironment(project: string, environment: string)
      modifies db
      ensures db.State() == Exceptions.DeleteEnvironment(old(db.State()), project, environment)
    {
      db.DeleteStrategies(set id | id in db.strategies && db.strategies[id].project == project &&
                                   db.strategies[id].environment == environment);
      db.DisconnectProject(environment, project);
    }

    method AddSegmentToStrategy(segment: int, strategy: string) returns (o: Outcome)
      modifies db
      ensures Step(db.State(), o) ==
              Steps.AddSegmentToStrategy(old(db.State()), strategySegmentsLimit, segment, strategy)
    {
      if |Steps.ListedSegments(db.State(), strategy)| >= strategySegmentsLimit {
        return Failed(BadData);
      }
      o := db.AddSegmentToStrategy(segment, strategy);
    }

    /** The tasks that add segments, in any order; all of them run, and the first failure is reported. */
    method AddSegmentsToStrategy(segments: set<int>, strategy: string) returns (o: Outcome, ghost added: set<int>)
      requires Integrity(db.State()) && strategy in db.strategies && Steps.SegmentsOf(db.State(), strategy) == {}
      requires segments <= db.segments.Keys
      modifies db
      ensures added <= segments && |added| == Steps.Min(|segments|, strategySegmentsLimit)
      ensures o == if |segments| <= strategySegmentsLimit then Done else Failed(BadData)
      ensures db.State() == Steps.WithSegments(old(db.State()), strategy, added)
    {
      var pending := segments;
      ghost var was, tried := db.State(), {};
      Clone.NoSegments(was, strategy);
      o, added := Done, {};
      while pending != {}
        invariant tried + pending == segments && tried !! pending
        invariant added <= tried && |added| == Steps.Min(|tried|, strategySegmentsLimit)
        invariant o == if |tried| <= strategySegmentsLimit then Done else Failed(BadData)
        invariant db.State() == Steps.WithSegments(was, strategy, added)
        decreases pending
      {
        var g := Pick(pending);
        Clone.AddOneMoreSegment(was, strategySegmentsLimit, strategy, added, g);
        ghost var fits := |added| < strategySegmentsLimit;
        OneMoreTried(tried, added, g, strategySegmentsLimit);
        var task := AddSegmentToStrategy(g, strategy);
        o := if o == Done then task else o;
        added := if fits then added + {g} else added;
        MoveOne(tried, pending, g);
        pending, tried := pending - {g}, tried + {g};
      }
      assert tried == segments;
    }

    method CloneStrategySegments(source: string, target: string) returns (o: Outcome, ghost added: set<int>)
      requires Integrity(db.State()) && target in db.strategies && source != target
      requires Steps.SegmentsOf(db.State(), target) == {}
      modifies db
      ensures var all := Steps.SegmentsOf(old(db.State()), source);
              && added <= all && |added| == Steps.Min(|all|, strategySegmentsLimit)
              && o == if |all| <= strategySegmentsLimit then Done else Failed(BadData)
      ensures db.State() == Steps.WithSegments(old(db.State()), target, added)
    {
      Clone.ListedSegmentsAreAll(db.State(), source);
      o, added := AddSegmentsToStrategy(Steps.ListedSegments(db.State(), source), target);
    }

    /** One task of a clone: validate the constraints, create the copy, then give it the segments of its source. */
    method CloneStrategy(source: string, id: string, config: StrategyConfig, ctx: Steps.Context,
                         accepts: seq<Constraint> -> bool) returns (o: Outcome, ghost added: Option<set<int>>)
      requires Integrity(db.State()) && source in db.strategies && id !in db.strategies
      requires ctx.feature in db.features && db.features[ctx.feature].project == ctx.project
      requires ctx.environment in db.environments
      modifies db
      ensures added.Some? <==> Steps.PassesValidation(accepts, config.constraints)
      ensures added == None ==> o == Failed(BadData) && db.State() == old(db.State())
      ensures added.Some? ==>
                var all := Steps.SegmentsOf(old(db.State()), source);
                && added.value <= all && |added.value| == Steps.Min(|all|, strategySegmentsLimit)
                && db.State() == old(db.State()).(
                     strategies := old(db.strategies)[id := Strategy(ctx.feature, ctx.project, ctx.environment, config)],
                     strategySegments := Steps.WithSegments(old(db.State()), id, added.value).strategySegments)
    {
      if |config.constraints| > 0 && !accepts(config.constraints) {
        return Failed(BadData), None;
      }
      ghost var was := db.State();
      o := CreateStrategy(id, config, ctx);
      assert o == Done;
      UnusedIdHasNoSegments(was, id);
      assert Steps.SegmentsOf(db.State(), source) == Steps.SegmentsOf(was, source);
      assert Steps.SegmentsOf(db.State(), id) == Steps.SegmentsOf(was, id);
      ghost var segments;
      o, segments := CloneStrategySegments(source, id);
      added := Some(segments);
    }

    /** The task of one source; `was` holds the tables before the tasks, `copied` what the earlier ones did. */
    method CloneNextStrategy(ghost was: Db, ghost copied: Steps.CopyResults, s: string, stored: Strategy, project: string,
                             clone: string, replaceGroupId: bool, ids: map<string, string>,
                             accepts: seq<Constraint> -> bool) returns (ghost more: Steps.CopyResults)
      requires Integrity(was) && copied.Keys + {s} <= was.strategies.Keys && s !in copied
      requires Steps.FreshIds(was, copied.Keys, ids) && Steps.FreshIds(was, copied.Keys + {s}, ids)
      requires Steps.PossibleCopies(was, was.strategies.Keys, copied)
      requires clone in was.features && was.features[clone].project == project
      requires stored == was.strategies[s]
      requires db.State() == Steps.CopyStrategies(was, copied, project, clone, replaceGroupId, ids)
      modifies db
      ensures var all := Steps.SegmentsOf(was, s);
              if Steps.PassesValidation(accepts, stored.config.constraints)
              then s in more && more == copied[s := more[s]] && more[s] <= all
                   && |more[s]| == Steps.Min(|all|, strategySegmentsLimit)
              else more == copied
      ensures more.Keys <= was.strategies.Keys && Steps.FreshIds(was, more.Keys, ids)
      ensures db.State() == Steps.CopyStrategies(was, more, project, clone, replaceGroupId, ids)
    {
      CopyReady(was, copied, s, project, clone, replaceGroupId, ids);
      var config := Steps.ClonedConfig(stored.config, replaceGroupId, clone);
      var o, added := CloneStrategy(s, ids[s], config, Steps.Context(clone, project, stored.environment), accepts);
      if added.Some? {
        Clone.CopyOneMore(was, copied, s, added.value, project, clone, replaceGroupId, ids);
        more := copied[s := added.value];
      } else {
        more := copied;
      }
    }

    /** The copy tasks, in any order; a failing one does not stop the others. */
    method CloneStrategies(rows: set<string>, project: string, clone: string, replaceGroupId: bool,
                           ids: map<string, string>, accepts: seq<Constraint> -> bool)
      returns (ghost copied: Steps.CopyResults)
      requires Integrity(db.State()) && rows <= db.strategies.Keys && Steps.FreshIds(db.State(), rows, ids)
      requires clone in db.features && db.features[clone].project == project
      modifies db
      ensures Steps.TaskResults(old(db.State()), rows, accepts, strategySegmentsLimit, copied)
      ensures copied.Keys <= old(db.strategies).Keys && Steps.FreshIds(old(db.State()), copied.Keys, ids)
      ensures db.State() == Steps.CopyStrategies(old(db.State()), copied, project, clone, replaceGroupId, ids)
    {
      var pending, stored := rows, db.strategies;
      ghost var was, tried := db.State(), {};
      copied := map[];
      Clone.CopyNothing(was, project, clone, replaceGroupId, ids);
      while pending != {}
        invariant tried + pending == rows && tried !! pending
        invariant Steps.TaskResults(was, tried, accepts, strategySegmentsLimit, copied)
        invariant Steps.FreshIds(was, copied.Keys, ids)
        invariant db.State() == Steps.CopyStrategies(was, copied, project, clone, replaceGroupId, ids)
        decreases pending
      {
        var s := Pick(pending);
        FreshForOneMore(was, rows, copied.Keys + {s}, ids);
        ghost var before := copied;
        copied := CloneNextStrategy(was, copied, s, stored[s], project, clone, replaceGroupId, ids, accepts);
        OneMoreResult(was, tried, s, accepts, strategySegmentsLimit, before, copied);
        MoveOne(tried, pending, s);
        pending, tried := pending - {s}, tried + {s};
      }
      assert tried == rows;
    }

    /** `accepts` says whether a list of constraints passes validation; `copied` is what the tasks got done. */
    method CloneFeatureToggle(source: string, project: string, clone: string, replaceGroupId: bool,
                              ids: map<string, string>, accepts: seq<Constraint> -> bool)
      returns (o: Outcome, ghost copied: Steps.CopyResults)
      requires Integrity(db.State())
      requires Steps.FreshIds(db.State(), Steps.ListedStrategies(db.State(), source), ids)
      modifies db
      ensures Steps.PossibleCopies(old(db.State()), Steps.ListedStrategies(old(db.State()), source), copied)
      ensures Step(db.State(), o) == Steps.CloneToggle(old(db.State()), source, project, clone, replaceGroupId, ids, copied)
      ensures o == Done ==> Steps.TaskResults(old(db.State()), Steps.ListedStrategies(old(db.State()), source),
                                              accepts, strategySegmentsLimit, copied)
    {
      copied := map[];
      if clone in db.features {
        return Failed(NameExists), copied;
      }
      if source !in db.features || db.features[source].archived {
        return Failed(NotFound), copied;
      }
      var rows := Steps.ListedStrategies(db.State(), source);
      ghost var was := db.State();
      o := CreateFeatureToggle(project, clone, false, db.features[source].data);
      if o == Done {
        CreatedForClone(was, project, clone, was.features[source].data);
        Invariants.SameLinksSameSegments(was, db.State());
        copied := CloneStrategies(rows, project, clone, replaceGroupId, ids, accepts);
      }
    }
  }

  lemma FreshForOneMore(db: Db, sources: set<string>, some: set<string>, ids: map<string, string>)
    requires Steps.FreshIds(db, sources, ids) && some <= sources
    ensures Steps.FreshIds(db, some, ids)
  {
  }

  lemma OneMoreResult(was: Db, tried: set<string>, s: string, accepts: seq<Constraint> -> bool, limit: nat,
                      copied: Steps.CopyResults, more: Steps.CopyResults)
    requires tried + {s} <= was.strategies.Keys && s !in tried
    requires Steps.TaskResults(was, tried, accepts, limit, copied)
    requires if Steps.PassesValidation(accepts, was.strategies[s].config.constraints)
             then s in more && more == copied[s := more[s]] && more[s] <= Steps.SegmentsOf(was, s)
                  && |more[s]| == Steps.Min(|Steps.SegmentsOf(was, s)|, limit)
             else more == copied
    ensures Steps.TaskResults(was, tried + {s}, accepts, limit, more)
  {
  }

  lemma OneMoreTried(tried: set<int>, added: set<int>, g: int, limit: nat)
    requires g !in tried && added <= tried && |added| == Steps.Min(|tried|, limit)
    ensures |tried + {g}| == |tried| + 1 && |added + {g}| == |added| + 1
  {
    assert g !in added;
  }

  /** Some element of a query's rows. */
  method Pick<T>(s: set<T>) returns (x: T)
    requires s != {}
    ensures x in s
  {
    x :| x in s;
  }

  lemma MoveOne<T>(a: set<T>, b: set<T>, x: T)
    requires a !! b && x in b
    ensures (a + {x}) + (b - {x}) == a + b && (a + {x}) !! (b - {x})
  {
  }

  lemma UnusedIdHasNoSegments(db: Db, id: string)
    requires Integrity(db) && id !in db.strategies
    ensures Steps.SegmentsOf(db, id) == {}
  {
  }

  lemma CreatedForClone(db: Db, project: string, clone: string, data: FeatureData)
    requires Integrity(db) && clone !in db.features && project in db.projects
    ensures var r := Steps.CreateToggle(db, project, clone, false, data).db;
            && Integrity(r)
            && clone in r.features && r.features[clone].project == project
            && r.strategies == db.strategies && r.strategySegments == db.strategySegments
            && r.environments == db.environments
  {
  }

  /** What the next copy needs of the tables once `copied` are done. */
  lemma CopyReady(created: Db, copied: Steps.CopyResults, s: string, project: string, clone: string,
                  replaceGroupId: bool, ids: map<string, string>)
    requires Integrity(created) && clone in created.features
    requires copied.Keys + {s} <= created.strategies.Keys && s !in copied
    requires Steps.FreshIds(created, copied.Keys + {s}, ids) && Steps.FreshIds(created, copied.Keys, ids)
    requires Steps.PossibleCopies(created, created.strategies.Keys, copied)
    ensures var now := Steps.CopyStrategies(created, copied, project, clone, replaceGroupId, ids);
            && Integrity(now)
            && s in now.strategies && ids[s] !in now.strategies
            && Steps.SegmentsOf(now, ids[s]) == {}
            && Steps.SegmentsOf(now, s) == Steps.SegmentsOf(created, s)
  {
    var now := Steps.CopyStrategies(created, copied, project, clone, replaceGroupId, ids);
    CopiesKeepIntegrity(created, copied, project, clone, replaceGroupId, ids);
    Invariants.CopiedRows(created, copied.Keys, project, clone, replaceGroupId, ids);
    Clone.CopiedSegments(created, copied, now, ids);
    assert ids[s] !in now.strategies;
    UnusedIdHasNoSegments(now, ids[s]);
  }

  lemma CopiesKeepIntegrity(db: Db, copied: Steps.CopyResults, project: string, clone: string,
                            replaceGroupId: bool, ids: map<string, string>)
    requires Integrity(db) && clone in db.features
    requires Steps.FreshIds(db, copied.Keys, ids) && Steps.PossibleCopies(db, db.strategies.Keys, copied)
    ensures Integrity(Steps.CopyStrategies(db, copied, project, clone, replaceGroupId, ids))
  {
    Invariants.CopiedRows(db, copied.Keys, project, clone, replaceGroupId, ids);
    Invariants.CopiedRowsKeepForeignKeys(db, copied, ids);
  }

  // ---------- Projects ----------

  class ProjectService {
    const db: Database
    const toggles: FeatureToggleService

    constructor (toggles: FeatureToggleService)
      ensures this.toggles == toggles && db == toggles.db
    {
      this.toggles := toggles;
      db := toggles.db;
    }

    method CreateProject(id: string, name: string) returns (o: Outcome)
      requires Integrity(db.State())
      modifies db
      ensures Step(db.State(), o) == Steps.CreateProject(old(db.State()), id, name)
    {
      if id in db.projects {
        return Failed(NameExists);
      }
      db.projects := db.projects[id := name];
      var enabled := set e | e in db.environments && db.environments[e].enabled;
      var pending := enabled;
      ghost var linked := {};
      while pending != {}
        invariant linked + pending == enabled && linked !! pending
        invariant db.State() == old(db.State()).(
                    projects := old(db.projects)[id := name],
                    projectEnvs := old(db.projectEnvs) + set e | e in linked :: ProjectEnv(id, e))
        decreases pending
      {
        var e :| e in pending;
        o := db.ConnectProject(e, id);
        assert o == Done;
        pending, linked := pending - {e}, linked + {e};
      }
      assert linked == enabled;
      return Done;
    }

    method DeleteProject(id: string) returns (o: Outcome)
      modifies db
      ensures Step(db.State(), o) == Exceptions.DeleteProject(old(db.State()), id)
    {
      if id == DEFAULT_PROJECT {
        return Failed(InvalidOperation);
      }
      if exists f :: f in db.features && db.features[f].project == id && !db.features[f].archived {
        return Failed(InvalidOperation);
      }
      db.projects := db.projects - {id};
      db.projectEnvs := set l | l in db.projectEnvs && l.project != id;
      return Done;
    }

    method CheckProjectsCompatibility(feature: string, newProject: string) returns (compatible: bool)
      ensures compatible <==> FeatureEnvironments(db.State(), feature) == Steps.ListedEnvironments(db.State(), newProject)
    {
      var featureEnvs := ToList(FeatureEnvironments(db.State(), feature));
      var newEnvs := ToList(Steps.ListedEnvironments(db.State(), newProject));
      compatible := ArraysHaveSameItems(featureEnvs, newEnvs);
    }

    method ChangeProject(newProject: string, feature: string, authorized: bool, currentProject: string)
      returns (o: Outcome)
      requires toggles.db == db
      modifies db
      ensures Step(db.State(), o) == Steps.ChangeProject(old(db.State()), newProject, feature, authorized, currentProject)
    {
      if feature !in db.features {
        return Failed(NotFound);
      }
      if db.features[feature].project != currentProject {
        return Failed(NoAccess);
      }
      if newProject !in db.projects {
        return Failed(NotFound);
      }
      if !authorized {
        return Failed(NoAccess);
      }
      var compatible := CheckProjectsCompatibility(feature, newProject);
      if !compatible {
        return Failed(IncompatibleProject);
      }
      o := toggles.ChangeProject(feature, newProject);
      db.SetProjectForStrategiesBelongingToFeature(feature, newProject);
      return Done;
    }
  }

  /** The rows of a query, in some order. */
  method ToList(s: set<string>) returns (r: seq<string>)
    ensures forall x :: x in r <==> x in s
    ensures |r| == |s| && Distinct(r)
  {
    r := [];
    var pending := s;
    ghost var listed := {};
    while pending != {}
      invariant listed + pending == s && listed !! pending
      invariant forall x :: x in r <==> x in listed
      invariant |r| == |listed| && Distinct(r)
      decreases pending
    {
      var x :| x in pending;
      r := r + [x];
      pending, listed := pending - {x}, listed + {x};
    }
    assert listed == s;
  }
}
