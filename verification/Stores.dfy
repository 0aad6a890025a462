/** The tables as mutable state, with the statements the stores issue on them. */
module Stores {
  import opened Tables
  import opened Steps

  lemma WithNoFeatureEnvs(rows: map<FeatureEnv, bool>)
    ensures WithFeatureEnvs(rows, {}) == rows
  {
  }

  lemma WithOneMoreFeatureEnv(rows: map<FeatureEnv, bool>, added: set<FeatureEnv>, l: FeatureEnv)
    ensures var before := WithFeatureEnvs(rows, added);
            WithFeatureEnvs(rows, added + {l}) == if l in before then before else before[l := false]
  {
  }

  class Database {
    var environments: map<string, Environment>
    var projects: map<string, string>
    var projectEnvs: set<ProjectEnv>
    var features: map<string, Feature>
    var featureEnvs: map<FeatureEnv, bool>
    var strategies: map<string, Strategy>
    var segments: map<int, Segment>
    var strategySegments: set<StrategySegment>
    var tagTypes: map<string, string>
    var tags: set<Tag>
    var featureTags: set<FeatureTag>

    constructor ()
      ensures State() == Db(map[], map[], {}, map[], map[], map[], map[], {}, map[], {}, {})
    {
      environments, projects, projectEnvs, features, featureEnvs := map[], map[], {}, map[], map[];
      strategies, segments, strategySegments, tagTypes, tags, featureTags := map[], map[], {}, map[], {}, {};
    }

    /** The contents of all tables. */
    function State(): Db
      reads this
    {
      Db(environments, projects, projectEnvs, features, featureEnvs, strategies, segments, strategySegments,
         tagTypes, tags, featureTags)
    }

    // ---------- project_environments and feature_environments ----------

    method ConnectProject(environment: string, project: string) returns (o: Outcome)
      modifies this`projectEnvs
      ensures Step(State(), o) == Steps.ConnectProject(old(State()), environment, project)
    {
      if ProjectEnv(project, environment) in projectEnvs {
        return Failed(UniqueViolation);
      }
      if project !in projects || environment !in environments {
        return Failed(ForeignKeyViolation);
      }
      projectEnvs := projectEnvs + {ProjectEnv(project, environment)};
      return Done;
    }

    method DisconnectProject(environment: string, project: string)
      modifies this`projectEnvs
      ensures State() == Steps.DisconnectProject(old(State()), environment, project)
    {
      projectEnvs := projectEnvs - {ProjectEnv(project, environment)};
    }

    /** INSERT ... ON CONFLICT DO NOTHING of one disabled row. */
    method InsertFeatureEnv(l: FeatureEnv)
      modifies this`featureEnvs
      ensures featureEnvs == if l in old(featureEnvs) then old(featureEnvs) else old(featureEnvs)[l := false]
    {
      if l !in featureEnvs {
        featureEnvs := featureEnvs[l := false];
      }
    }

    /** Inserts the rows one at a time, in any order. */
    method InsertFeatureEnvs(rows: set<FeatureEnv>)
      modifies this`featureEnvs
      ensures featureEnvs == WithFeatureEnvs(old(featureEnvs), rows)
    {
      var pending := rows;
      ghost var inserted, was := {}, featureEnvs;
      WithNoFeatureEnvs(was);
      while pending != {}
        invariant inserted + pending == rows
        invariant featureEnvs == WithFeatureEnvs(was, inserted)
        decreases pending
      {
        var l :| l in pending;
        WithOneMoreFeatureEnv(was, inserted, l);
        InsertFeatureEnv(l);
        pending, inserted := pending - {l}, inserted + {l};
      }
      assert inserted == rows;
    }

    method ConnectFeatures(environment: string, project: string)
      modifies this`featureEnvs
      ensures State() == Steps.ConnectFeatures(old(State()), environment, project)
    {
      InsertFeatureEnvs(set f | f in ProjectFeatures(State(), project) :: FeatureEnv(f, environment));
    }

    method ConnectFeatureToEnvironmentsForProject(feature: string, project: string)
      modifies this`featureEnvs
      ensures State() == Steps.ConnectFeatureToEnvironmentsForProject(old(State()), feature, project)
    {
      InsertFeatureEnvs(set e | e in ProjectEnvironments(State(), project) :: FeatureEnv(feature, e));
    }

    method DisconnectFeatures(environment: string, project: string)
      modifies this`featureEnvs
      ensures State() == Steps.DisconnectFeatures(old(State()), environment, project)
    {
      featureEnvs := featureEnvs - set f | f in ProjectFeatures(State(), project) :: FeatureEnv(f, environment);
    }

    method DisableEnvironmentIfNoStrategies(feature: string, environment: string)
      modifies this`featureEnvs
      ensures State() == DisableIfNoStrategies(old(State()), feature, environment)
    {
      var l := FeatureEnv(feature, environment);
      if StrategiesIn(State(), feature, environment) == {} && l in featureEnvs {
        featureEnvs := featureEnvs[l := false];
      }
    }

    /** Updates the row only if its flag differs; returns how many rows changed. */
    method SetEnvironmentEnabledStatus(environment: string, feature: string, enabled: bool) returns (updated: nat)
      modifies this`featureEnvs
      ensures featureEnvs == if FeatureEnv(feature, environment) in old(featureEnvs)
                             then old(featureEnvs)[FeatureEnv(feature, environment) := enabled]
                             else old(featureEnvs)
      ensures updated == if old(featureEnvs) != featureEnvs then 1 else 0
    {
      var l := FeatureEnv(feature, environment);
      if l in featureEnvs && featureEnvs[l] == !enabled {
        featureEnvs := featureEnvs[l := enabled];
        assert featureEnvs[l] != old(featureEnvs)[l];
        return 1;
      }
      return 0;
    }

    // ---------- environments ----------

    method SetEnabled(names: set<string>, value: bool)
      modifies this`environments
      ensures State() == Steps.SetEnabled(old(State()), names, value)
    {
      environments := map e | e in environments ::
        if e in names then environments[e].(enabled := value) else environments[e];
    }

    // ---------- features and strategies ----------

    /** DELETE FROM feature_strategies; the segment links cascade. */
    method DeleteStrategies(ids: set<string>)
      modifies this`strategies, this`strategySegments
      ensures State() == RemoveStrategies(old(State()), ids)
    {
      strategies := strategies - ids;
      strategySegments := set l | l in strategySegments && l.strategy !in ids;
    }

    /** DELETE FROM features; environments, strategies and tags cascade. */
    method DeleteFeatures(names: set<string>)
      modifies this
      ensures State() == RemoveFeatures(old(State()), names)
    {
      DeleteStrategies(set id | id in strategies && strategies[id].feature in names);
      features := features - names;
      featureEnvs := featureEnvs - set l | l in featureEnvs && l.feature in names;
      featureTags := set t | t in featureTags && t.feature !in names;
    }

    method DeleteFeature(name: string)
      modifies this
      ensures State() == if name in old(features) && old(features)[name].archived
                         then RemoveFeatures(old(State()), {name}) else old(State())
    {
      if name in features && features[name].archived {
        DeleteFeatures({name});
      }
    }

    method InsertStrategy(id: string, s: Strategy) returns (o: Outcome)
      modifies this`strategies
      ensures strategies == if o == Done then old(strategies)[id := s] else old(strategies)
      ensures o == if id in old(strategies) then Failed(UniqueViolation)
                   else if s.feature !in features || s.environment !in environments then Failed(ForeignKeyViolation)
                   else Done
    {
      if id in strategies {
        return Failed(UniqueViolation);
      }
      if s.feature !in features || s.environment !in environments {
        return Failed(ForeignKeyViolation);
      }
      strategies := strategies[id := s];
      return Done;
    }

    method SetProjectForStrategiesBelongingToFeature(feature: string, project: string)
      modifies this`strategies
      ensures State() == SetStrategyProject(old(State()), feature, project)
    {
      strategies := map id | id in strategies ::
        if strategies[id].feature == feature then strategies[id].(project := project) else strategies[id];
    }

    method AddSegmentToStrategy(segment: int, strategy: string) returns (o: Outcome)
      modifies this`strategySegments
      ensures o == if StrategySegment(strategy, segment) in old(strategySegments) then Failed(UniqueViolation)
                   else if strategy !in strategies || segment !in segments then Failed(ForeignKeyViolation)
                   else Done
      ensures strategySegments == if o == Done then old(strategySegments) + {StrategySegment(strategy, segment)}
                                  else old(strategySegments)
    {
      if StrategySegment(strategy, segment) in strategySegments {
        return Failed(UniqueViolation);
      }
      if strategy !in strategies || segment !in segments {
        return Failed(ForeignKeyViolation);
      }
      strategySegments := strategySegments + {StrategySegment(strategy, segment)};
      return Done;
    }
  }
}
