# Toggle configuration of Unleash

A Dafny model of the part of the Unleash server that owns toggle configuration: the tables for
environments, projects, toggles, their environments, strategies, segments and tags, the services that
change them, the queries that read them back, and, beside them, variant weights, project roles and
permissions, API tokens and password-reset tokens.

The central facts are ones that no single table constraint states and that several services keep together:

- a toggle has exactly the environments of its project, and a strategy is filed under its toggle's project,
  over every run of the service calls (`Invariants`);
- a toggle that is enabled in an environment has a strategy there, over every run whose strategy deletions
  name the strategy's own environment or are harmless for another reason; the exact condition is proved, and
  so is what the calls outside the runs do to the invariants (`Invariants`, `Override`, `Exceptions`);
- the flat rows of the two big joins are folded into exactly the toggles the tables hold, whatever the order
  of the rows, and inlining segments preserves meaning (`ClientFold`, `ClientQuery`, `AdminFold`,
  `AdminQuery`);
- export followed by import with dropBeforeImport restores the active configuration, a version 1 document
  can be read back through the legacy view, and an import without dropBeforeImport succeeds under an exact
  condition, brings all of the document, changes nothing that exists when existing rows are kept, and can be
  repeated (`StateImport`, `StateRoundTrip`, `LegacyImport`, `ImportIntegrity`, `ImportEffects`,
  `AdditiveImport`);
- each call succeeds under an exact condition, fails with a named error and an exact state, and changes the
  rows it should and no other (`Effects`, `RoleEffects`, `Override`, `Clone`);
- what the calls write is what the APIs answer: a created or updated strategy is shown with its configuration,
  an updated or switched toggle is served with its new data or flag, a toggle moves only with the permission of
  the new project, and after every safe run an enabled toggle that is served has
  something to evaluate (`EndToEnd`); pairs of calls undo each other (`Inverses`);
- a project keeps an owner, permissions are a simple relation, tokens round-trip and are used once
  (`Owners`, `RoleEffects`, `Permissions`, `ApiTokens`, `ResetTokens`);
- weights of variants add up to 1000 exactly when the fix weights add up to a whole number (`Variants`).

## How it is built

`Tables` holds the rows and one snapshot `Db` of all tables with their foreign keys. `Steps` says what each
service call makes of a snapshot, including every error path, and what a failing call has already written.
`Stores` and `Services` hold the tables as mutable state and carry the calls out statement by statement:
each method is proved to compute the step of the same name. The table below lists those with a loop or another
refinement argument; for a straight-line method it lists the lemmas about its step. `StateImport` and `StateService`, `Access`
and `AccessServices` are paired in the same way. In `ClientFold`, `AdminFold`, `ApiTokens` and `Variants` the loops
are methods proved against functions, and the lemmas beside them say what those functions mean.

A unique or foreign key violation is a failure result. Where the code starts several tasks at once and waits
for all of them, the model runs them one after another, in any order where the tables are sets, and every task
runs even when another fails. Each service call is one atomic step.

## Where the code differs from what one would expect

- The query that should remove the strategies of a disconnected environment only selects them, so they stay
  (src/lib/db/feature-environment-store.ts:129-144). The invariants hold for this code.
- `validateFeatureStrategyContext` does not compare environments, so a deletion may look at the wrong one
  (`Override.DeletionUnderAnotherEnvironment`, `Invariants.DeleteStrategyKeepsEnabledIff`).
- A strategy can be created in an environment its project does not have; it is then invisible until the
  project gets the environment (`Override.CreatedStrategyIsListedIff`, `Override.CreatedStrategyIsHidden`).
- An environment override can leave a project without environments (`Override.OverrideKeepsOneEnvironmentIff`,
  `Override.OverrideTakesLastEnvironment`), and it can fail with the links moved
  (`Override.OverrideReportsExistingLink`, `Override.OverrideFailsWithLinksMoved`).
- Cloning reports success although strategies or segments were not copied (`Clone.CloneIsCompleteIff`).
- An import with dropBeforeImport of an export fails when a segment is linked to a strategy of an archived
  toggle, since the link is exported and its strategy is not, and when there are projects but no default
  environment (`StateRoundTrip.ExportImportRoundTrip`, `StateRoundTrip.ArchivedLinkFails`,
  `StateRoundTrip.NoDefaultEnvFails`).
- A version 1 document with a toggle whose strategies are null fails after its environments are stored
  (`LegacyImport.NullStrategiesFail`).
- Deleting an active toggle does nothing and reports success (`Effects.DeleteFeatureIsExact`).
- An imported toggle whose name belongs to an archived toggle is not created; if it is in the
  document's project it gets the variants of the document, otherwise the import fails
  (`ImportEffects.FeaturesArrive`).
- A reset token presented with another user's id is accepted and not used up
  (`ResetTokens.AcceptedIsUsedUpIff`, `ResetTokens.OtherUserIsAcceptedTwice`).
- Fractional fix weights make the total of a variant list miss 1000 (`Variants.FractionalTotalMisses`).
- A user with two project roles in one project cannot change role: the bulk update violates the primary key.
  This is why an owner survives without assuming one role per user (`Owners.RunKeepsOwner`,
  `RoleEffects.ChangeRoleSucceedsIff`).

## Model

| member | source | states |
|---|---|---|
| `Invariants.RunKeepsInv` | src/lib/db/feature-environment-store.ts:129-270 | Over every run of the sixteen service calls, successful, failing or partly carried out, each toggle has exactly the environments of its project, each strategy is filed under the current project of its toggle, and the foreign keys hold. |
| `Invariants.RunKeepsEnabled` | src/lib/services/feature-toggle-service.ts:831-885 | Over every such run whose strategy deletions are safe, a toggle enabled in an environment has a strategy there. |
| `Invariants.DeleteStrategyKeepsEnabledIff` | src/lib/services/feature-toggle-service.ts:445-475 | Deleting a strategy keeps "enabled implies a strategy" exactly when the context names the strategy's own environment, or the toggle is off there, or another strategy stays there. |
| `Invariants.ChangeProjectKeepsInv` | src/lib/services/project-service.ts:182-241 | Because of the compatibility check, moving a toggle keeps its environments equal to those of its new project, and its strategies move along. |
| `Invariants.OverrideKeepsInv` | src/lib/services/environment-service.ts:97-165 | An environment override keeps the environments of toggles and projects in step. |
| `Invariants.CloneKeepsInv` | src/lib/services/feature-toggle-service.ts:620-662 | Cloning keeps all invariants, whichever of its copy tasks fail and wherever they stop. |
| `Override.DeletionUnderAnotherEnvironment` | src/lib/services/feature-toggle-service.ts:157-172 | A concrete state that satisfies every invariant and a deletion, under the name of another environment, after which a toggle is enabled without a strategy. |
| `Override.OverrideTakesLastEnvironment` | src/lib/services/environment-service.ts:97-165 | A project whose only environment is taken by asking for one that is already on. |
| `Override.OverrideFailsWithLinksMoved` | src/lib/services/environment-service.ts:137-165 | An override that reports a name conflict and has moved the links. |
| `Override.CreatedStrategyIsHidden` | src/lib/services/feature-toggle-service.ts:297-344 | A strategy stored in an environment its project does not have, which the toggle does not show. |
| `Exceptions.RemoveAllStrategiesKeepsEnabledIff` | src/lib/services/feature-toggle-service.ts:707-715 | Removing all strategies of a toggle in an environment keeps "enabled implies a strategy" exactly when the toggle is off there. |
| `Exceptions.DeleteEnvironmentKeepsIff` | src/lib/services/feature-toggle-service.ts:754-766 | Deleting an environment of a project keeps the flags consistent exactly when no toggle of the project is on there, and the environments in step exactly when the project was not linked to it or has no toggles. |
| `Exceptions.DeleteProjectKeepsInvIff` | src/lib/services/project-service.ts:243-270 | A deleted project leaves the invariants intact exactly when it has no toggles, archived ones included; the call only looks at active ones. |
| `Effects.ChangeProjectIsExact` | src/lib/services/project-service.ts:198-241 | A move succeeds exactly when the toggle is in the named project, the new project exists, the caller is authorized and both have the same environments; then exactly the project of the toggle and of its strategies changes. Otherwise nothing changes, and the error is that of the first condition that fails. |
| `Effects.UpdateToggleIsExact` | src/lib/services/feature-toggle-service.ts:664-698 | Afterwards the toggle has the given data and archived flag and everything else is as it was; a toggle of another project is refused and nothing changes. |
| `Effects.SetArchivedIsExact` | src/lib/services/feature-toggle-service.ts:817-829 | Archiving and reviving change the flag of one toggle and nothing else. |
| `Effects.DeleteFeatureIsExact` | src/lib/db/feature-toggle-store.ts:244-249 | An active toggle stays, with everything, although the call succeeds; an archived one goes with its environments, strategies, segment links and tags, and nothing else goes. |
| `Effects.CreateToggleIsExact` | src/lib/services/feature-toggle-service.ts:577-618 | Exactly the given toggle is added, off in exactly the environments of its project; a used name or a missing project is refused and nothing changes. |
| `Effects.UpdateEnabledIsExact` | src/lib/services/feature-toggle-service.ts:831-885 | Exactly one flag changes; a missing environment, or switching on without a strategy filed under the named project, is refused and nothing changes. |
| `Effects.CreateStrategyIsExact` | src/lib/services/feature-toggle-service.ts:297-344 | Exactly the given strategy is added; a toggle of another project, a used id and an unknown environment are refused in this order and nothing changes. |
| `Effects.UpdateStrategyIsExact` | src/lib/services/feature-toggle-service.ts:357-397 | The strategy stays where it is, with its sort order, and no other changes; the wrong toggle or project is refused. |
| `Effects.DeleteStrategyIsExact` | src/lib/services/feature-toggle-service.ts:445-475 | The strategy goes with its segment links; the only flag that can change is that of the context's environment, which is kept exactly when the toggle has another strategy there. |
| `Effects.RemoveAllStrategiesIsExact` | src/lib/services/feature-toggle-service.ts:707-715 | Exactly the strategies of the toggle in the environment go, with their segment links; flags stay. |
| `Effects.CloneSucceedsIff` | src/lib/services/feature-toggle-service.ts:620-662 | A clone is refused exactly when the name is used, the source is missing or archived, or the project is missing; a refused one changes nothing. |
| `Effects.AddSegmentIsExact` | src/lib/services/segment-service.ts:139-172 | A segment link is added exactly below the limit, once, between rows that exist; each refusal has its own error and changes nothing. |
| `Effects.CreateProjectIsExact` | src/lib/services/project-service.ts:132-165 | A new project is linked to exactly the enabled environments; a used id is refused. |
| `Effects.AddEnvironmentIsExact` | src/lib/services/environment-service.ts:74-95 | The project and each of its toggles get the environment, off where it is new; a linked environment is a name conflict, a missing row a foreign key failure, and a refused call changes nothing. |
| `Effects.RemoveEnvironmentIsExact` | src/lib/services/environment-service.ts:181-199 | Refused exactly when the project has no two environments; otherwise the link and the rows of the project's toggles go and nothing else does. |
| `Effects.ToggleEnvironmentIsExact` | src/lib/services/environment-service.ts:66-72 | Only the flag of an unprotected environment changes. |
| `Effects.DeleteEnvironmentIsExact` | src/lib/services/feature-toggle-service.ts:754-766 | Exactly the project's strategies in the environment go, with their segment links, and the project's link; the toggles keep their rows. |
| `Effects.DeleteProjectIsExact` | src/lib/services/project-service.ts:243-270 | The default project and projects with active toggles stay; otherwise the project goes with its links. |
| `Inverses.CreateDeleteStrategy` | src/lib/services/feature-toggle-service.ts:297-344 | Creating a strategy and deleting it again restores all tables. |
| `Inverses.AddRemoveEnvironment` | src/lib/services/environment-service.ts:74-95 | Adding an environment to a project and removing it restores all tables, unless it is the only one; then the removal is refused. |
| `Inverses.RemoveAddEnvironment` | src/lib/services/environment-service.ts:167-199 | Removing an environment and adding it back restores everything but the flags of the project's toggles there, which end up off. |
| `Inverses.ChangeProjectBack` | src/lib/services/project-service.ts:198-241 | Moving a toggle to another project and back restores all tables. |
| `Inverses.CreateArchiveDelete` | src/lib/services/feature-toggle-service.ts:973-987 | Creating, archiving and deleting a toggle restores all tables. |
| `Inverses.EnableDisable` | src/lib/services/feature-toggle-service.ts:831-885 | Switching a toggle on and off again restores the tables exactly when it was off before. |
| `Inverses.EnabledIff` | src/lib/services/feature-toggle-service.ts:838-857 | A toggle can be switched on exactly when its project has the environment and it has a strategy there; no row appears or disappears. |
| `Inverses.NewProjectsToggle` | src/lib/services/project-service.ts:132-165 | A toggle created in a new project starts in exactly the environments that were enabled when the project was created, off in each. |
| `Inverses.UpdateStrategyTwice` | src/lib/services/feature-toggle-service.ts:357-397 | The same update twice is that update once, and an update with the current values changes nothing. |
| `Inverses.UpdateToggleBack` | src/lib/services/feature-toggle-service.ts:664-698 | Updating a toggle and updating it with its old data restores all tables. |
| `Inverses.SwitchEnvironmentBack` | src/lib/services/environment-service.ts:66-72 | Switching an environment and switching it back restores the tables exactly when it is protected or the first switch changed it. |
| `EndToEnd.ServedTogglesAreUsable` | src/lib/db/feature-toggle-client-store.ts:56-166 | Over every safe run, whatever a query returns is selected by it and belongs to an existing project; what it returns as enabled has strategies, in an environment of that project. |
| `EndToEnd.SwitchedToggleIsServed` | src/lib/services/feature-toggle-service.ts:831-885 | After a toggle is switched, every query that selects it returns it with the new flag and exactly its strategies; switched on, it has at least one. |
| `EndToEnd.ArchivedToggleIsNotServed` | src/lib/services/feature-toggle-service.ts:817-829 | After archiving or reviving, a query returns the toggle exactly when it asks for that state and its filters match. |
| `EndToEnd.CreatedStrategyIsShown` | src/lib/services/feature-toggle-service.ts:297-344 | A strategy created in an environment of the project is shown there with its name, constraints, parameters and sort order, beside those shown before, which are unchanged. |
| `EndToEnd.UpdatedStrategyIsShown` | src/lib/services/feature-toggle-service.ts:357-397 | After an update the toggle shows the same strategies; the updated one has the given name and parameters, or the old ones where none were given, and the given constraints or none; no other changes. |
| `EndToEnd.UpdatedToggleIsServed` | src/lib/services/feature-toggle-service.ts:664-698 | After an update, a query returns the toggle exactly when it asks for the given archived state and its filters match, with the given data and with flag and strategies as before. |
| `EndToEnd.MovesIffPermitted` | src/lib/services/project-service.ts:213-223 | With the answer of the permission check, a toggle moves exactly when the user holds the move permission in the new project, through a role or a group, and the rest is in order. |
| `Override.LengthCheckIsExact` | src/lib/services/environment-service.ts:104-119 | The length comparison passes exactly when the requested names are distinct and all exist. |
| `Override.OverrideIsExact` | src/lib/services/environment-service.ts:97-165 | Then exactly the requested environments are enabled; the project links are exactly the old ones not to a newly disabled environment, and one to each newly enabled environment for each project that lost a link; the toggle environments follow the links, the kept ones with their flags and the new ones off; the other tables stay. |
| `Override.OverrideOtherwiseIgnored` | src/lib/services/environment-service.ts:100-121 | Otherwise nothing changes and the call reports success. |
| `Override.OverrideMovesLinks` | src/lib/services/environment-service.ts:137-165 | Afterwards no project is linked to a newly disabled environment, each project that lost a link has all newly enabled ones, and the others keep their links. |
| `Override.OverrideReportsExistingLink` | src/lib/services/environment-service.ts:137-165 | The call fails, with the links moved nevertheless, exactly when a project that lost a link was already linked to a newly enabled environment. |
| `Override.RemoveKeepsOneEnvironment` | src/lib/services/environment-service.ts:181-199 | Removing an environment never takes the last one of any project. |
| `Override.OverrideKeepsOneEnvironmentIff` | src/lib/services/environment-service.ts:97-165 | An override takes the last environment of a project exactly when all its environments are turned off and none is turned on. |
| `Override.CreatedStrategyIsListedIff` | src/lib/services/feature-toggle-service.ts:297-344 | A created strategy is one that the toggle shows exactly when the project has the environment; the call succeeds as soon as the environment exists. |
| `Clone.CloneCopiesStrategies` | src/lib/services/feature-toggle-service.ts:620-662 | When every copy task succeeds, the clone has in every environment one copy of each strategy the source shows, with only groupId replaced and only when asked for, with the same segments, and no other strategy. |
| `Clone.CloneCopiesWhatSucceeds` | src/lib/services/feature-toggle-service.ts:640-661 | Whichever tasks succeed, the clone has exactly the strategies that were copied, in their environments, with only groupId replaced and with the segments that were added; every stored strategy keeps its row and segments. |
| `Clone.CloneIsCompleteIff` | src/lib/services/segment-service.ts:120-172 | The tasks complete the clone exactly when the constraints of every strategy the source shows pass validation again and none has more segments than the limit. |
| `Clone.CloneStartsDisabled` | src/lib/services/feature-toggle-service.ts:577-662 | The clone has the source's data and its project's environments, all off; every other toggle and flag is unchanged. |
| `Clone.AddOneMoreSegment` | src/lib/services/segment-service.ts:139-172 | Below the limit one more segment is added, at the limit the call fails and changes nothing. |
| `Services.ArraysHaveSameItems` | src/lib/util/arraysHaveSameItems.ts:1-12 | Comparing sizes of the sets and then membership one way is set equality. |
| `Services.EnvironmentService.RemapProjectLinks` | src/lib/services/environment-service.ts:137-165 | Unlinking and linking pair by pair, in any order, gives the links that the override theorems speak of. |
| `Services.EnvironmentService.OverrideEnabledProjects` | src/lib/services/environment-service.ts:97-135 | The two bulk updates and the remapping, pair by pair, compute the tables of which the override theorems speak. |
| `Services.FeatureToggleService.CloneStrategySegments` | src/lib/services/segment-service.ts:120-137 | Copying segment links one by one, in any order, gives the target the source's segments up to the limit, and fails exactly when there are more. |
| `Services.FeatureToggleService.CloneFeatureToggle` | src/lib/services/feature-toggle-service.ts:620-662 | The tasks, in any order, copy exactly the strategies whose constraints pass validation, each with its segments up to the limit; a failing task stops no other and the call succeeds. |
| `Services.ProjectService.CreateProject` | src/lib/services/project-service.ts:132-165 | Linking environment by environment, in any order, links the new project to every enabled environment. |
| `Services.ProjectService.CheckProjectsCompatibility` | src/lib/services/project-service.ts:182-196 | True exactly when the toggle's environments are those of the new project. |
| `Stores.Database.ConnectFeatures` | src/lib/db/feature-environment-store.ts:220-240 | Every toggle of the project gets the environment, off, unless it has it already. |
| `ClientFold.GetAll` | src/lib/db/feature-toggle-client-store.ts:134-166 | The loop over the rows computes the fold that the following lemmas speak of. |
| `ClientFold.Reduce` | src/lib/db/feature-toggle-client-store.ts:134-163 | One iteration: find or create the toggle, add an unseen strategy, attach the segment. |
| `ClientFold.FoldMeans` | src/lib/db/feature-toggle-client-store.ts:134-163 | For consistent rows: exactly one toggle per name with its columns, each strategy once under its own toggle, each strategy-segment pair attached once. |
| `ClientFold.FoldIgnoresRowOrder` | src/lib/db/feature-toggle-client-store.ts:134-163 | Permuting consistent rows changes nothing but the order of strategies and of segments. |
| `ClientFold.InlinedFoldIgnoresRowOrder` | src/lib/db/feature-toggle-client-store.ts:206-213 | With inlined segments, permuting the rows changes nothing but the order of strategies and of their constraints. |
| `ClientFold.InliningIsExact` | src/lib/db/feature-toggle-client-store.ts:206-229 | For any rows the inlining fold gives the toggles of the id fold, each strategy with its own constraints followed by those of its segments. |
| `ClientFold.InliningPreservesMeaning` | src/lib/db/feature-toggle-client-store.ts:206-229 | Whatever a constraint means, the inlined constraints all hold exactly when the strategy's own and those of each referenced segment do. |
| `ClientQuery.JoinIsConsistent` | src/lib/db/feature-toggle-client-store.ts:86-109 | The rows of the client join over tables with intact foreign keys are consistent. |
| `ClientQuery.LikeIsPrefix` | src/lib/db/feature-toggle-client-store.ts:122-128 | A name prefix without special characters selects exactly the names that start with it. |
| `ClientQuery.SelectedIff` | src/lib/db/feature-toggle-client-store.ts:110-132 | A query selects exactly the toggles of its archived state that have one of the given tags, are in one of the given projects and start with the given prefix; a missing or empty environment is the default one. |
| `ClientQuery.ClientReadsTables` | src/lib/db/feature-toggle-client-store.ts:56-166 | A query with any tag, project and prefix filters returns exactly the toggles they select, with their columns, their flag in the environment and exactly their stored strategies and segments there. |
| `ClientQuery.RowsCarrySegments` | src/lib/db/feature-toggle-client-store.ts:86-109 | The rows of the query carry the constraints of the stored segments. |
| `ClientQuery.ClientInlinesTables` | src/lib/db/feature-toggle-client-store.ts:56-213 | With inlined segments the query returns the same toggles and strategies; whatever a constraint means, the constraints returned all hold exactly when those of the stored strategy and of each of its stored segments do. |
| `AdminFold.SortBySorts` | src/lib/db/feature-strategy-store.ts:286-301 | The sort orders its list and permutes it. |
| `AdminFold.SortedIsUnique` | src/lib/db/feature-strategy-store.ts:286-301 | With distinct keys a list has only one sorted permutation. |
| `AdminFold.GetFeatureToggleWithEnvs` | src/lib/db/feature-strategy-store.ts:254-318 | An answer exactly when there are rows, and then the folded environments, each once with its strategies sorted, in sort order. |
| `AdminFold.ViewMeans` | src/lib/db/feature-strategy-store.ts:254-305 | For consistent rows: each environment once with its columns, each joined strategy once under its own environment, both levels sorted. |
| `AdminFold.ViewIgnoresRowOrder` | src/lib/db/feature-strategy-store.ts:254-305 | With distinct sort orders the answer does not depend on the order of the rows. |
| `AdminQuery.JoinIsConsistent` | src/lib/db/feature-strategy-store.ts:206-248 | The rows of the admin join are consistent. |
| `AdminQuery.AdminReadsTables` | src/lib/db/feature-strategy-store.ts:201-318 | The admin query returns the toggle's stored data with exactly its environments, their flags and their stored strategies, each once. |
| `AdminQuery.LegacyReadsDefault` | src/lib/services/feature-toggle-service.ts:931-944 | The legacy view returns the flag and exactly the strategies of the default environment. |
| `AdminQuery.LegacyWithoutDefault` | src/lib/services/feature-toggle-service.ts:931-944 | A toggle without the default environment shows as off and without strategies. |
| `StateService.StateService.Export` | src/lib/services/state-service.ts:662-741 | The document lists the active toggles with their environments and strategies, and every other table in full, each row once. |
| `StateService.StateService.Import` | src/lib/services/state-service.ts:156-255 | The calls compute the import of the round-trip and additive theorems: its stages in order, the first failing one ends it. |
| `StateService.StateService.ImportFeatures` | src/lib/services/state-service.ts:327-367 | Task by task, after dropping and filtering, the toggle stage of the import; every task runs and the first failure is reported. |
| `StateService.StateService.ImportFeatureEnvironments` | src/lib/services/state-service.ts:258-268 | Row by row, the flag stage of the import; every task runs and the first failure is reported. |
| `StateService.StateService.ImportFeatureStrategies` | src/lib/services/state-service.ts:271-297 | Row by row, after dropping and filtering by id, the strategy stage of the import. |
| `StateService.StateService.ImportProjects` | src/lib/services/state-service.ts:453-488 | Row by row, the project stage of the import; exactly the projects that were new get the default link. |
| `StateService.StateService.ImportTagData` | src/lib/services/state-service.ts:491-631 | Types row by row, then tags, then links: the tag stage of the import, stopped by the first foreign key failure. |
| `StateService.StateService.ImportSegments` | src/lib/services/state-service.ts:633-647 | Row by row, the segment stage of the import; a used id fails and the others are stored. |
| `StateService.StateService.ImportFeatureStrategySegments` | src/lib/services/state-service.ts:649-660 | Row by row, the link stage of the import; a link that does not fit fails and the others are stored. |
| `StateService.StateService.ReplaceGlobalEnvWithDefaultEnv` | src/lib/services/state-service.ts:136-154 | The three lists are renamed entry by entry. |
| `StateService.StateService.ExportAndImport` | src/lib/services/state-service.ts:156-255 | Exporting one store and importing into another, as calls: success exactly when no segment link hangs on an archived toggle and the default environment is there, and then the target is the restored source. |
| `StateRoundTrip.ExportImportRoundTrip` | src/lib/services/state-service.ts:156-255 | The same for every document the export can produce and every target: all tables of the target are exactly the active part of the source. |
| `StateRoundTrip.ArchivedLinkFails` | src/lib/services/state-service.ts:649-660 | An export, with a segment linked to an archived toggle, that can be imported nowhere. |
| `StateRoundTrip.NoDefaultEnvFails` | src/lib/db/project-store.ts:172-194 | An export, with a project and no default environment, that can be imported nowhere. |
| `StateRoundTrip.RestoredIsStable` | src/lib/services/state-service.ts:662-741 | What one round trip keeps, the next one keeps. |
| `StateImport.VersionTwoImportsAsThree` | src/lib/services/state-service.ts:136-165 | A document with the old name of the default environment, marked version 2, imports exactly like the version 3 document. |
| `StateImport.OnlyVersionTwoIsRenamed` | src/lib/services/state-service.ts:163-165 | Documents of other versions keep their environment names. |
| `ImportIntegrity.ImportKeepsIntegrity` | src/lib/services/state-service.ts:156-255 | Every import, successful or not, leaves the foreign keys intact, and no stage after the strategies touches toggles, their environments or their strategies. |
| `LegacyImport.ConversionKeepsStrategies` | src/lib/services/state-service.ts:300-324 | The conversion keeps each toggle's strategies, in order, and mixes none of them up. |
| `LegacyImport.LegacyRoundTrip` | src/lib/services/state-service.ts:300-324 | A version 1 document imported with dropBeforeImport and read through the legacy view gives each active toggle's flag and its multiset of strategy names, constraints and parameters. |
| `LegacyImport.NullStrategiesFail` | src/lib/services/state-service.ts:300-324 | A document without a version, or of version 0 or 1, with a toggle whose strategies are null fails once its environments are stored; no other document breaks the conversion. |
| `LegacyImport.NewDocumentsStay` | src/lib/services/state-service.ts:176-183 | The toggles, flags and strategies of other versions are imported as they are. |
| `AdditiveImport.AdditiveImportExtends` | src/lib/services/state-service.ts:258-367 | Without dropBeforeImport and with keepExisting, every existing row of every table stays as it is, except flags of toggle environments and variants of archived toggles, whatever the document and the outcome. |
| `AdditiveImport.FeatureRowsMean` | src/lib/services/state-service.ts:351-366 | What the toggle stage makes of each name: a new toggle, new variants for an existing one of the same project, or a failure for one of another project. |
| `AdditiveImport.FeatureEnvsMean` | src/lib/services/state-service.ts:258-268 | The stored flags are the old ones overridden by the last fitting row of each key; the stage fails exactly when a row does not fit. |
| `ImportEffects.ImportArrives` | src/lib/services/state-service.ts:156-255 | Without dropBeforeImport, with and without keepExisting: the import succeeds if and only if the document is acceptable to the tables, and then all of it has arrived: environments, toggles, flags, strategies, projects with their default links, tag types, tags, tag links, segments and segment links. |
| `ImportEffects.FeaturesArrive` | src/lib/services/state-service.ts:327-367 | A toggle whose name is new is stored exactly as the document has it; an existing one is left alone, or gets the document's variants and nothing else, as keepExisting, its archived flag and its project say; the stage fails exactly when a toggle that is not kept belongs to another project. |
| `ImportEffects.FlagsArrive` | src/lib/services/state-service.ts:258-268 | The stage succeeds exactly when every row has its toggle and environment; then the document's flags, the last one of each key, replace those of the tables. |
| `ImportEffects.StrategyRowsArrive` | src/lib/services/state-service.ts:271-297 | Exactly the strategies with a toggle, an environment and an unused id are stored, field by field under their own or a generated id; the stage succeeds exactly when the others are ones that are kept. |
| `ImportEffects.AddedRowsMerge` | src/lib/services/state-service.ts:408-488 | Of environments, projects and tag types the first row of each new key is added and existing rows stay, whether they are kept or ignored. |
| `ImportEffects.ProjectsArrive` | src/lib/services/state-service.ts:453-488 | Each new project arrives with exactly its link to the default environment; the stage fails exactly when there is a new project and no default environment. |
| `ImportEffects.TagsArrive` | src/lib/services/state-service.ts:491-631 | Types, tags and links of the document are added; the stage succeeds exactly when each tag has its type and each link its toggle and tag, in the tables or in the document. |
| `ImportEffects.SegmentsArrive` | src/lib/services/state-service.ts:633-647 | Every segment arrives unless its id is taken; the stage succeeds exactly when none is. |
| `ImportEffects.LinksArrive` | src/lib/services/state-service.ts:649-660 | Every link arrives that has its strategy and segment; the stage succeeds exactly when all do, each once. |
| `AdditiveImport.StrategiesTwiceIff` | src/lib/services/state-service.ts:271-297 | A second strategy stage adds nothing exactly when every strategy without an id has no toggle or environment to go to. |
| `AdditiveImport.ImportTwiceIff` | src/lib/services/state-service.ts:258-367 | For distinct toggle names, a second import of a document leaves toggles, their environments and strategies as the first one left them if all its strategies have ids; after a successful first import, only then. |
| `Variants.FixVariantWeights` | src/lib/services/feature-toggle-service.ts:1070-1107 | The loops assign the weights of the specification in place and change no fix variant; a rejected list is not changed at all. |
| `Variants.AcceptedIff` | src/lib/services/feature-toggle-service.ts:1070-1106 | A list is accepted if and only if it is empty, or it has a variable variant and its fix weights total at most 1000. |
| `Variants.ThousandIsTheLimit` | src/lib/services/feature-toggle-service.ts:1087-1091 | Fix weights of exactly 1000 beside a variable variant are accepted; any total above is not. |
| `Variants.WeightsAddUpIff` | src/lib/services/feature-toggle-service.ts:1070-1107 | The accepted weights add up to exactly 1000 if and only if the fix weights add up to a whole number. |
| `Variants.WholeWeightsAddUp` | src/lib/services/feature-toggle-service.ts:1070-1107 | With whole weights the total is exactly 1000. |
| `Variants.FractionalTotalMisses` | src/lib/schema/feature-schema.ts:53 | A list the schema accepts whose weights miss 1000. |
| `Variants.AnswerIsPermutation` | src/lib/services/feature-toggle-service.ts:1070-1107 | The answer has the variants of the question, the fix ones with their weights. |
| `Variants.SharesAreFair` | src/lib/services/feature-toggle-service.ts:1088-1104 | Variable variants come first; their weights are not negative, differ by at most one, the larger ones first. |
| `Variants.FixWeightsIsIdempotent` | src/lib/services/feature-toggle-service.ts:1070-1107 | A second application changes nothing. |
| `Owners.RunKeepsOwner` | src/lib/services/project-service.ts:297-571 | Over every run of the role calls, a project with an owner user or group keeps one, whatever roles users and groups hold; removals of groups have to be safe. |
| `Owners.RemoveGroupKeepsOwnerIff` | src/lib/services/project-service.ts:394-421 | Removing a group keeps the owner exactly when the group is not the only owner. |
| `Owners.CreatedProjectHasOwnerIff` | src/lib/services/access-service.ts:405-422 | A created project has an owner exactly when its creator has an id. |
| `Owners.ChangeRoleKeepsOwner` | src/lib/db/access-store.ts:302-317 | The bulk update of a user's roles never takes the last owner. |
| `Owners.ChangeGroupRoleKeepsOwner` | src/lib/db/access-store.ts:319-334 | The bulk update of a group's roles never takes the last owner. |
| `Owners.RemoveUserKeepsOwner` | src/lib/services/project-service.ts:336-362 | Removing a user never takes the last owner. |
| `RoleEffects.ChangeRoleSucceedsIff` | src/lib/services/project-service.ts:483-527 | A role change succeeds exactly when it is no change, or the user is not the last owner, has no second project role, and the new role exists and is not held yet. |
| `RoleEffects.ChangeRoleIsExact` | src/lib/db/access-store.ts:302-317 | The new row replaces the user's project roles in the project; no other row changes. |
| `RoleEffects.ChangeGroupRoleSucceedsIff` | src/lib/services/project-service.ts:529-571 | The same condition for the role of a group. |
| `RoleEffects.ChangeGroupRoleIsExact` | src/lib/db/access-store.ts:319-334 | The new row replaces the group's project roles in the project; no other row changes. |
| `RoleEffects.AddRemoveUser` | src/lib/services/project-service.ts:297-362 | Adding a user and removing it restores all grants, unless the user is the only owner. |
| `RoleEffects.SetUserRootRoleIsExact` | src/lib/services/access-service.ts:219-244 | Afterwards the user has exactly the one root role, and no other row changes. |
| `RoleEffects.SetUserRootRoleSucceedsIff` | src/lib/services/access-service.ts:219-244 | Only a root role can be set, and only for an existing user; for a missing user the old root roles are gone nevertheless. |
| `RoleEffects.LastOwnerIff` | src/lib/services/project-service.ts:466-481 | The owner check refuses exactly when the role is the owner role and among the users that hold it and the groups that report it there are no two. |
| `RoleEffects.AddUserIsExact` | src/lib/services/project-service.ts:297-334 | Exactly one row is added; a missing user or project role and a user that has a role in the project are refused. |
| `RoleEffects.RemoveUserIsExact` | src/lib/services/project-service.ts:336-362 | Exactly the user's row goes, unless nobody has the role, the role is missing or no other owner stays. |
| `RoleEffects.AddGroupIsExact` | src/lib/services/project-service.ts:364-421 | Exactly one group row is added or removed; a missing role, group or project and a row that exists are refused. |
| `RoleEffects.AddAccessIsExact` | src/lib/db/access-store.ts:336-370 | All or none of the rows of the listed users and groups are added, and nothing else changes. |
| `RoleEffects.CreateDefaultProjectRolesIsExact` | src/lib/services/access-service.ts:405-422 | The creator of a project gets exactly one row, the owner's; a creator without an id gets none. |
| `AccessServices.ProjectAccessService.RemoveUser` | src/lib/services/project-service.ts:336-362 | A possible step of the owner runs, with its outcome. |
| `AccessServices.ProjectAccessService.ChangeRole` | src/lib/services/project-service.ts:483-527 | A possible step of the owner runs, with its outcome. |
| `AccessServices.ProjectAccessService.ChangeGroupRole` | src/lib/services/project-service.ts:529-571 | A possible step of the owner runs, with its outcome. |
| `Permissions.HasPermissionIffAllowed` | src/lib/services/access-service.ts:107-144 | The filter chain is true exactly when some role, held directly or through a group, carries the permission or ADMIN in a scope that covers the question. |
| `Permissions.AllowedIsMonotone` | src/lib/db/access-store.ts:113-146 | More memberships or role permissions never turn true into false. |
| `Permissions.AddingNeverRevokes` | src/lib/services/project-service.ts:297-436 | Adding users or groups to a project, one by one or in bulk, takes no permission from anyone. |
| `Permissions.AddedAreAllowed` | src/lib/services/project-service.ts:423-436 | After a successful bulk grant every listed user, and every member of a listed group, may do in the project whatever the role carries there. |
| `Permissions.AddedOneByOneAreAllowed` | src/lib/services/project-service.ts:297-392 | The same for a user or a group added alone. |
| `Permissions.NothingWithoutPermissions` | src/lib/services/access-service.ts:122-143 | Without permissions, or when they cannot be read, nothing is permitted. |
| `Permissions.ApiUserPermission` | src/lib/services/access-service.ts:146-153 | An API user is judged by its own list, in every project and environment. |
| `ResetTokens.RunKeepsOnePerUser` | src/lib/services/reset-token-service.ts:105-119 | Over every run under a monotone clock a user has at most one token that is unused and not expired. |
| `ResetTokens.ExpiredStaysExpired` | src/lib/db/reset-token-store.ts:52-111 | An expired token never becomes active again. |
| `ResetTokens.AcceptedAtMostOnce` | src/lib/services/reset-token-service.ts:36-75 | A token is accepted at most once together with its own user. |
| `ResetTokens.AcceptedIsUsedUpIff` | src/lib/db/reset-token-store.ts:84-93 | An accepted token is used up exactly when the call names its own user; with another user nothing changes and it would be accepted again. |
| `ResetTokens.OtherUserIsAcceptedTwice` | src/lib/services/reset-token-service.ts:36-44 | A token accepted twice with another user's id. |
| `ResetTokens.ResetTokenService.CreateToken` | src/lib/services/reset-token-service.ts:105-119 | Expiring the user's tokens row by row, then storing the new one, is the step of the run theorems. |
| `ResetTokens.CreatedTokenWorksIff` | src/lib/services/reset-token-service.ts:36-119 | A created token is accepted for its user at every reading before the expiry computed at its creation and at none from then on, after every run that neither creates another token for the user nor uses this one. |
| `ResetTokens.CreateTokenIsExact` | src/lib/services/reset-token-service.ts:105-119 | A token is created exactly when it is new; the user's other tokens end and nobody else's do. |
| `ResetTokens.UseTokenIsExact` | src/lib/services/reset-token-service.ts:36-75 | A call is accepted exactly for a stored token that is neither used nor expired; only that token can change, and only for its own user. |
| `ApiTokens.ApiTokenStore.Insert` | src/lib/db/api-token-store.ts:136-162 | Filtering the wildcard and storing the links one by one is the insertion of the round trip; a secret in use or an unknown project undoes it all. |
| `ApiTokens.ToTokens` | src/lib/db/api-token-store.ts:36-75 | The reduction computes the fold of the following lemmas. |
| `ApiTokens.FoldMeans` | src/lib/db/api-token-store.ts:36-60 | For consistent rows: a token per secret with its columns and exactly the linked projects in row order, or the wildcard if none. |
| `ApiTokens.TokensRoundTrip` | src/lib/db/api-token-store.ts:36-162 | For any tokens of distinct secrets and any order of the joined rows: each token once, with its environment and its projects other than the wildcard as a multiset, or just the wildcard. |
| `ApiTokens.InsertSucceedsIff` | src/lib/db/api-token-store.ts:136-162 | A token is stored exactly when its secret is new and its projects other than the wildcard are known, with null for the wildcard environment and an empty alias; a refused one leaves no trace. |

## Left out

- Events, timers, metrics, logging, hashing and token generation; generated ids are parameters assumed to be new.
- Joi schemas, JSON patch, constraint type validators and name validation: valid input is assumed.
- Interleaving of concurrent requests: nothing in the code guards against it.
- Creation, update and last-seen times, and the user who made a change.
- The strategy definitions of an import, and the API tokens it removes when environments are imported: they touch none of the modelled rows.
- The role, group-role and token-project rows that go with a deleted or dropped project.
- The include options of an export: all parts are exported.
- Segments of a document without an id, which the database numbers.
- The value and type aliases of tag links in old documents.
- `filterEqual` of an import: a stored toggle has columns a document lacks, so it never removes a row.
- Removal of strategy ids for clients, and the time stamps of the admin query (src/lib/db/feature-toggle-client-store.ts:168-194): they only hide columns.
- `updateStrategyParameter`, `updateStale`, `updateStrategiesSortOrder`, the deprecated `toggle` and the reads that return rows as they are: they would add only easy members.
- Evaluation of strategies and variants by the client library: any meaning of a constraint is allowed.
- The frontend, routes, middleware, addons, email and migrations.
- Invariants.RunKeepsInv: deleteProject, deleteEnvironment and removeAllStrategiesForEnv are not steps of a run, since they break the invariants; Exceptions says exactly when.
- Invariants.RunKeepsEnabled: runs are restricted to safe strategy deletions, by the condition that is proved exact for one deletion.
- ClientFold.GetAll: the result is a map; the order in which Object.values lists the toggles is not modelled. Joins have no row order either.
- AdminFold.GetFeatureToggleWithEnvs: Object.values lists the environments in any order before they are sorted.
- AdminFold.ViewIgnoresRowOrder: the distinctness of the sort orders is stated on one of the two answers.
- Clone.CloneCopiesStrategies: the validation of constraints says yes or no; a list it accepts is stored as it is.
- Services.FeatureToggleService.CloneFeatureToggle: the ids of the copies are given per source strategy. The tasks run one after another; started at once, the checks of the segment limit may all pass before a segment is added, which the run theorems cover and this method does not.
- StateRoundTrip.ExportImportRoundTrip: project links other than the default one, archived toggles and the sort order of strategies are not exported, so they are not restored.
- LegacyImport.LegacyRoundTrip: toggle names are distinct, no toggle has null strategies (the conversion fails otherwise), the default environment exists after the environment stage (the flags have no environment to go to otherwise), and the toggle read is active, since the legacy view hides archived ones.
- AdditiveImport.ImportTwiceIff: toggle names in the document are distinct; two rows of one new name in different projects fail the first time and are both skipped the second time.
- ImportEffects.ImportArrives: toggle names in the document are distinct, as in the theorem about two imports.
- ClientQuery.SelectedIff: the name prefix has no special characters; the meaning of those is in `ClientQuery.Like`.
- Variants.FixVariantWeights: weights are real numbers; rounding of floating-point numbers is not modelled. Variants are distinct objects.
- EndToEnd.ServedTogglesAreUsable: ids of strategies and segments are not empty or zero, as generated ones never are; the same holds of the other theorems about queries.
- Owners.RunKeepsOwner: groups are removed only where another owner stays, since removeGroup does not check; the exact condition is proved.
- ResetTokens.RunKeepsOnePerUser: the clock readings of the calls do not run backwards.
