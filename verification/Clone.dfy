/** Cloning a toggle copies its configuration and touches nothing else. */
module Clone {
  import opened Collections
  import opened Tables
  import opened Steps
  import opened Invariants

  /** `copy` is `config` with only the groupId parameter replaced, and only when that was asked for
      and the strategy has one. */
  predicate OnlyGroupIdReplaced(config: StrategyConfig, copy: StrategyConfig, replaceGroupId: bool, clone: string) {
    && copy.name == config.name && copy.constraints == config.constraints && copy.sortOrder == config.sortOrder
    && copy.parameters.Keys == config.parameters.Keys
    && forall k <- config.parameters ::
         copy.parameters[k] == if k == "groupId" && replaceGroupId then clone else config.parameters[k]
  }

  lemma CopiesOneMore(db: Db, sources: set<string>, s: string, project: string, clone: string, replaceGroupId: bool,
                      ids: map<string, string>)
    requires sources + {s} <= db.strategies.Keys && FreshIds(db, sources + {s}, ids) && s !in sources
    ensures FreshIds(db, sources, ids)
    ensures var before := Copies(db, sources, project, clone, replaceGroupId, ids);
            && ids[s] !in before
            && Copies(db, sources + {s}, project, clone, replaceGroupId, ids) ==
               before[ids[s] := Strategy(clone, project, db.strategies[s].environment,
                                         ClonedConfig(db.strategies[s].config, replaceGroupId, clone))]
  {
  }

  lemma CopiedLinksOneMore(copied: CopyResults, s: string, segments: set<int>, ids: map<string, string>)
    requires copied.Keys + {s} <= ids.Keys && s !in copied
    ensures CopiedLinks(copied[s := segments], ids) ==
            CopiedLinks(copied, ids) + set g | g in segments :: StrategySegment(ids[s], g)
  {
  }

  /** Copying one more strategy adds its row and its segment links. */
  lemma CopyOneMore(db: Db, copied: CopyResults, s: string, segments: set<int>, project: string, clone: string,
                    replaceGroupId: bool, ids: map<string, string>)
    requires copied.Keys + {s} <= db.strategies.Keys && FreshIds(db, copied.Keys + {s}, ids) && s !in copied
    ensures FreshIds(db, copied.Keys, ids) && copied[s := segments].Keys == copied.Keys + {s}
    ensures var before := CopyStrategies(db, copied, project, clone, replaceGroupId, ids);
            && ids[s] !in before.strategies
            && CopyStrategies(db, copied[s := segments], project, clone, replaceGroupId, ids) == before.(
                 strategies := before.strategies[ids[s] := Strategy(clone, project, db.strategies[s].environment,
                                 ClonedConfig(db.strategies[s].config, replaceGroupId, clone))],
                 strategySegments := WithSegments(before, ids[s], segments).strategySegments)
  {
    CopiesOneMore(db, copied.Keys, s, project, clone, replaceGroupId, ids);
    CopiedLinksOneMore(copied, s, segments, ids);
    var row := Strategy(clone, project, db.strategies[s].environment,
                        ClonedConfig(db.strategies[s].config, replaceGroupId, clone));
    var before := Copies(db, copied.Keys, project, clone, replaceGroupId, ids);
    assert copied[s := segments].Keys == copied.Keys + {s};
    JoinOneMore(db.strategies, before, ids[s], row);
    UnionOneMore(db.strategySegments, CopiedLinks(copied, ids),
                 set g | g in segments :: StrategySegment(ids[s], g));
  }

  lemma JoinOneMore<K, V>(a: map<K, V>, b: map<K, V>, k: K, v: V)
    ensures a + b[k := v] == (a + b)[k := v]
  {
  }

  lemma UnionOneMore<T>(a: set<T>, b: set<T>, c: set<T>)
    ensures a + (b + c) == (a + b) + c
  {
  }

  /** Adding one more segment succeeds below the limit and changes nothing at it. */
  lemma AddOneMoreSegment(db: Db, limit: nat, target: string, added: set<int>, g: int)
    requires Integrity(db) && target in db.strategies && SegmentsOf(db, target) == {}
    requires added + {g} <= db.segments.Keys && g !in added
    ensures AddSegmentToStrategy(WithSegments(db, target, added), limit, g, target) ==
            if |added| < limit then Step(WithSegments(db, target, added + {g}), Done)
            else Step(WithSegments(db, target, added), Failed(BadData))
  {
    var now := WithSegments(db, target, added);
    forall x
      ensures x in SegmentsOf(now, target) <==> x in added
    {
    }
    assert ListedSegments(now, target) == added;
    assert db.strategySegments + (set x | x in added + {g} :: StrategySegment(target, x)) ==
           db.strategySegments + (set x | x in added :: StrategySegment(target, x)) + {StrategySegment(target, g)};
  }

  lemma NoSegments(db: Db, target: string)
    ensures WithSegments(db, target, {}) == db
  {
  }

  lemma ListedSegmentsAreAll(db: Db, strategy: string)
    requires Integrity(db)
    ensures ListedSegments(db, strategy) == SegmentsOf(db, strategy)
  {
  }

  lemma CopyNothing(db: Db, project: string, clone: string, replaceGroupId: bool, ids: map<string, string>)
    ensures CopyStrategies(db, map[], project, clone, replaceGroupId, ids) == db
  {
  }

  /** The copies carry the configuration of their sources and the segments they were given, one to one, and what
      was stored before stays. */
  lemma CopiesAreFaithful(db: Db, copied: CopyResults, project: string, clone: string, replaceGroupId: bool,
                          ids: map<string, string>)
    requires Integrity(db) && copied.Keys <= db.strategies.Keys && FreshIds(db, copied.Keys, ids)
    ensures var r := CopyStrategies(db, copied, project, clone, replaceGroupId, ids);
            && (forall s <- copied ::
                  && ids[s] in r.strategies
                  && r.strategies[ids[s]] == Strategy(clone, project, db.strategies[s].environment,
                                                      r.strategies[ids[s]].config)
                  && OnlyGroupIdReplaced(db.strategies[s].config, r.strategies[ids[s]].config, replaceGroupId, clone)
                  && SegmentsOf(r, ids[s]) == copied[s])
            && (forall id <- db.strategies ::
                  && id in r.strategies && r.strategies[id] == db.strategies[id]
                  && SegmentsOf(r, id) == SegmentsOf(db, id))
            && (forall id <- r.strategies :: id in db.strategies || exists s :: s in copied && id == ids[s])
  {
    CopiedRows(db, copied.Keys, project, clone, replaceGroupId, ids);
    CopiedSegments(db, copied, CopyStrategies(db, copied, project, clone, replaceGroupId, ids), ids);
  }

  lemma CopiedSegments(db: Db, copied: CopyResults, r: Db, ids: map<string, string>)
    requires Integrity(db) && FreshIds(db, copied.Keys, ids)
    requires r.strategySegments == db.strategySegments + CopiedLinks(copied, ids)
    ensures forall s <- copied :: SegmentsOf(r, ids[s]) == copied[s]
    ensures forall id <- db.strategies :: SegmentsOf(r, id) == SegmentsOf(db, id)
  {
    forall s <- copied
      ensures SegmentsOf(r, ids[s]) == copied[s]
    {
      forall g
        ensures g in SegmentsOf(r, ids[s]) <==> g in copied[s]
      {
        assert StrategySegment(ids[s], g) !in db.strategySegments;
      }
    }
  }

  /** A new toggle has its project's environments, all disabled, and no strategies. */
  lemma NewToggle(db: Db, project: string, name: string, data: FeatureData)
    requires Inv(db) && name !in db.features && project in db.projects
    ensures var r := CreateToggle(db, project, name, false, data).db;
            && Integrity(r)
            && r == db.(features := db.features[name := Feature(project, false, data)], featureEnvs := r.featureEnvs)
            && FeatureEnvironments(r, name) == ProjectEnvironments(db, project)
            && (forall l <- r.featureEnvs :: l.feature == name ==> !r.featureEnvs[l])
            && (forall l <- db.featureEnvs :: l in r.featureEnvs && r.featureEnvs[l] == db.featureEnvs[l])
  {
  }

  lemma CloneUnfolds(db: Db, source: string, project: string, clone: string, replaceGroupId: bool,
                     ids: map<string, string>, copied: CopyResults)
    requires Inv(db) && FreshIds(db, ListedStrategies(db, source), ids) && copied.Keys <= ListedStrategies(db, source)
    requires CloneToggle(db, source, project, clone, replaceGroupId, ids, copied).outcome == Done
    ensures clone !in db.features && project in db.projects && source in db.features
    ensures var created := CreateToggle(db, project, clone, false, db.features[source].data).db;
            && copied.Keys <= created.strategies.Keys && FreshIds(created, copied.Keys, ids)
            && created.strategies == db.strategies && created.strategySegments == db.strategySegments
            && Integrity(created)
            && CloneToggle(db, source, project, clone, replaceGroupId, ids, copied).db ==
               CopyStrategies(created, copied, project, clone, replaceGroupId, ids)
  {
    NewToggle(db, project, clone, db.features[source].data);
  }

  /** A clone takes the source's data, its project's environments, all disabled; every stored toggle
      and flag stays as it was. */
  lemma CloneStartsDisabled(db: Db, source: string, project: string, clone: string, replaceGroupId: bool,
                            ids: map<string, string>, copied: CopyResults)
    requires Inv(db) && FreshIds(db, ListedStrategies(db, source), ids) && copied.Keys <= ListedStrategies(db, source)
    requires CloneToggle(db, source, project, clone, replaceGroupId, ids, copied).outcome == Done
    ensures var r := CloneToggle(db, source, project, clone, replaceGroupId, ids, copied).db;
            && clone !in db.features && source in db.features
            && r.features == db.features[clone := Feature(project, false, db.features[source].data)]
            && FeatureEnvironments(r, clone) == ProjectEnvironments(db, project)
            && (forall l <- r.featureEnvs :: l.feature == clone ==> !r.featureEnvs[l])
            && (forall l <- db.featureEnvs :: l in r.featureEnvs && r.featureEnvs[l] == db.featureEnvs[l])
  {
    NewToggle(db, project, clone, db.features[source].data);
  }

  /** Whichever tasks succeed, the clone's strategies are one-to-one copies, in the same environments, of the
      strategies copied, each with the segments it was given; every stored strategy keeps its row and its
      segments. */
  lemma CloneCopiesWhatSucceeds(db: Db, source: string, project: string, clone: string, replaceGroupId: bool,
                                ids: map<string, string>, copied: CopyResults)
    requires Inv(db) && FreshIds(db, ListedStrategies(db, source), ids) && copied.Keys <= ListedStrategies(db, source)
    requires CloneToggle(db, source, project, clone, replaceGroupId, ids, copied).outcome == Done
    ensures var r := CloneToggle(db, source, project, clone, replaceGroupId, ids, copied).db;
            && (forall s <- copied ::
                  && ids[s] in StrategiesIn(r, clone, db.strategies[s].environment)
                  && OnlyGroupIdReplaced(db.strategies[s].config, r.strategies[ids[s]].config, replaceGroupId, clone)
                  && SegmentsOf(r, ids[s]) == copied[s])
            && (forall id <- r.strategies :: r.strategies[id].feature == clone ==>
                  exists s :: s in copied && id == ids[s])
            && (forall id <- db.strategies ::
                  && id in r.strategies && r.strategies[id] == db.strategies[id]
                  && SegmentsOf(r, id) == SegmentsOf(db, id))
  {
    CloneUnfolds(db, source, project, clone, replaceGroupId, ids, copied);
    var created := CreateToggle(db, project, clone, false, db.features[source].data).db;
    SameLinksSameSegments(db, created);
    CopiesAreFaithful(created, copied, project, clone, replaceGroupId, ids);
  }

  /** When every task succeeds, the clone has in every environment a copy of each strategy the source shows there,
      with the same segments, and no other strategy; every stored strategy keeps its row and its segments. */
  lemma CloneCopiesStrategies(db: Db, source: string, project: string, clone: string, replaceGroupId: bool,
                              ids: map<string, string>)
    requires Inv(db) && FreshIds(db, ListedStrategies(db, source), ids)
    requires var full := FullCopies(db, ListedStrategies(db, source));
             CloneToggle(db, source, project, clone, replaceGroupId, ids, full).outcome == Done
    ensures var r := CloneToggle(db, source, project, clone, replaceGroupId, ids, FullCopies(db, ListedStrategies(db, source))).db;
            && (forall s <- ListedStrategies(db, source) ::
                  && ids[s] in StrategiesIn(r, clone, db.strategies[s].environment)
                  && OnlyGroupIdReplaced(db.strategies[s].config, r.strategies[ids[s]].config, replaceGroupId, clone)
                  && SegmentsOf(r, ids[s]) == SegmentsOf(db, s))
            && (forall id <- r.strategies :: r.strategies[id].feature == clone ==>
                  exists s :: s in ListedStrategies(db, source) && id == ids[s])
            && (forall id <- db.strategies ::
                  && id in r.strategies && r.strategies[id] == db.strategies[id]
                  && SegmentsOf(r, id) == SegmentsOf(db, id))
  {
    CloneCopiesWhatSucceeds(db, source, project, clone, replaceGroupId, ids, FullCopies(db, ListedStrategies(db, source)));
  }

  /** Running the tasks one after another completes the clone exactly when the constraints of every strategy the
      source shows pass validation again and none has more segments than the limit. */
  lemma CloneIsCompleteIff(db: Db, source: string, accepts: seq<Constraint> -> bool, limit: nat, copied: CopyResults)
    requires TaskResults(db, ListedStrategies(db, source), accepts, limit, copied)
    ensures copied == FullCopies(db, ListedStrategies(db, source)) <==>
            forall s <- ListedStrategies(db, source) ::
              && (db.strategies[s].config.constraints == [] || accepts(db.strategies[s].config.constraints))
              && |SegmentsOf(db, s)| <= limit
  {
    forall s <- copied
      ensures copied[s] == SegmentsOf(db, s) <==> |SegmentsOf(db, s)| <= limit
    {
      SubsetCount(copied[s], SegmentsOf(db, s));
    }
    var full := FullCopies(db, ListedStrategies(db, source));
    if copied == full {
      forall s <- ListedStrategies(db, source)
        ensures s in copied && copied[s] == SegmentsOf(db, s)
      {
        assert s in full;
      }
    }
  }
}
