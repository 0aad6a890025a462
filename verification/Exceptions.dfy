/** The calls that are not steps of a run: exactly when each keeps the invariants. */
module Exceptions {
  import opened Tables
  import opened Steps
  import opened Invariants

  function RemoveAllStrategiesForEnv(db: Db, feature: string, environment: string): Db {
    RemoveStrategies(db, StrategiesIn(db, feature, environment))
  }

  /** Takes the strategies and the project link away, and leaves the toggles' environments. */
  function DeleteEnvironment(db: Db, project: string, environment: string): Db {
    DisconnectProject(
      RemoveStrategies(db, set id | id in db.strategies && db.strategies[id].project == project &&
                                    db.strategies[id].environment == environment),
      environment, project)
  }

  /** Only active toggles protect a project; a toggle has no foreign key to it. */
  function DeleteProject(db: Db, id: string): Step {
    if id == DEFAULT_PROJECT then Step(db, Failed(InvalidOperation))
    else if exists f :: f in ProjectFeatures(db, id) && !db.features[f].archived then Step(db, Failed(InvalidOperation))
    else Step(db.(projects := db.projects - {id},
                  projectEnvs := set l | l in db.projectEnvs && l.project != id), Done)
  }

  predicate EnabledIn(db: Db, feature: string, environment: string) {
    FeatureEnv(feature, environment) in db.featureEnvs && db.featureEnvs[FeatureEnv(feature, environment)]
  }

  /** Removing all strategies of a toggle in an environment is safe exactly when the toggle is off there. */
  lemma RemoveAllStrategiesKeepsEnabledIff(db: Db, feature: string, environment: string)
    requires EnabledHasStrategy(db)
    ensures EnabledHasStrategy(RemoveAllStrategiesForEnv(db, feature, environment)) <==>
            !EnabledIn(db, feature, environment)
  {
  }

  lemma UnlinkingKeepsAgreementIff(db: Db, r: Db, project: string, environment: string)
    requires Inv(db) && r.features == db.features && r.featureEnvs == db.featureEnvs
    requires r.projectEnvs == db.projectEnvs - {ProjectEnv(project, environment)}
    ensures EnvironmentAgreement(r) <==>
            ProjectEnv(project, environment) !in db.projectEnvs || ProjectFeatures(db, project) == {}
  {
    var link := ProjectEnv(project, environment);
    forall f, e | f in r.features && (link !in db.projectEnvs || ProjectFeatures(db, project) == {})
      ensures FeatureEnv(f, e) in r.featureEnvs <==> ProjectEnv(r.features[f].project, e) in r.projectEnvs
    {
      assert ProjectEnv(r.features[f].project, e) == link ==> f in ProjectFeatures(db, project);
    }
  }

  /** Deleting an environment of a project is safe for the flags exactly when no toggle of the project is on
      there, and for the environments exactly when the project was not linked to it or has no toggles. */
  lemma DeleteEnvironmentKeepsIff(db: Db, project: string, environment: string)
    requires Inv(db) && EnabledHasStrategy(db)
    ensures var r := DeleteEnvironment(db, project, environment);
            && (EnabledHasStrategy(r) <==> forall f <- ProjectFeatures(db, project) :: !EnabledIn(db, f, environment))
            && (EnvironmentAgreement(r) <==>
                  ProjectEnv(project, environment) !in db.projectEnvs || ProjectFeatures(db, project) == {})
  {
    var r := DeleteEnvironment(db, project, environment);
    var ids := set id | id in db.strategies && db.strategies[id].project == project &&
                        db.strategies[id].environment == environment;
    forall l <- db.featureEnvs | db.featureEnvs[l]
      ensures StrategiesIn(db, l.feature, l.environment) <= ids <==>
              l.environment == environment && l.feature in ProjectFeatures(db, project)
    {
    }
    UnlinkingKeepsAgreementIff(db, r, project, environment);
  }

  /** Deleting a project keeps the invariants exactly when it has no toggles at all, archived ones included. */
  lemma DeleteProjectKeepsInvIff(db: Db, id: string)
    requires Inv(db) && DeleteProject(db, id).outcome == Done
    ensures Inv(DeleteProject(db, id).db) <==> ProjectFeatures(db, id) == {}
  {
  }
}
