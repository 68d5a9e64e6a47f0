# MCEq classic: particle tables, feed-down compaction and the Euler solvers

This project models the core of MCEq (the classic, Python 2 version). MCEq solves cascade equations for
particle fluxes in the atmosphere. The model covers its particle-data layer, its compaction and
low-energy extension of yield dictionaries, and its forward-Euler integrators. It proves
properties of that model in Dafny.

The model has four parts:

- **The database reader** (`HDF5Backend`, `MCEq/data.py`). `_gen_db_dictionary` decodes
  parent/child tuples of two or four integers into `(pdg, tag)` pairs. It skips disabled
  particles and cuts out each block matrix. It builds the relation lists and links
  "equivalent" parents to the same list object.
  - `interaction_db` merges the electromagnetic tables into the hadronic ones.
  - `decay_db` swaps in the helicity-dependent decays and rebuilds the relations.
  - `cs_db` and `continuous_loss_db` build the scalar tables.
- **The table classes.** `Interactions` loads a model and filters its parents. It regenerates
  or strips the relations. It registers particle-production modifications in `mod_pprod`
  (`_set_mod_pprod` with its isospin companions) and serves matrices (`get_matrix`, with the
  leading-meson veto). `_set_mod_pprod` is modelled as intended; the code as written raises
  in a log call first (see "## Findings"). `Decays` loads, filters and grows its parents. With
  helicity-dependent decays its relations are a default dictionary, so `get_matrix` enters an
  unknown parent with no children before it raises. `get_cs` picks a
  cross-section column by particle group.
- **The compaction** (`MCEq/data_utils.py`). `create_secondary_dict` indexes a yield
  dictionary. `follow_chained_decay` folds the decays of unstable secondaries into
  contributions to standard particles, relabelling prompt leptons. The projectile loop of
  `convert_to_compact` drives both. `extend_to_low_energies` blends high- and low-energy
  matrices across a transition window.
- **The integrators** (`MCEq/solvers.py`). `solv_numpy` integrates in place and saves
  checkpoints at the listed steps. `CUDASparseContext` and `solv_CUDA_sparse` do the same on
  device buffers, which are modelled as host arrays.

How the Python is represented:

- A particle key is `Code(c)` for a bare Python integer and `Pair(c, t)` for a `(pdg, tag)`
  tuple, ordered as Python 2 orders them (integers before tuples). Tables the source writes
  with bare integers therefore never match tuple keys. The model keeps that behaviour and
  proves its consequences:
  - the module-level `equivalences` are inert;
  - the shipped `allowed_projectiles` remove every parent;
  - `disable_interactions_of_unstable` removes the nucleons.
- Errors the source raises become `Result` / `Outcome` values naming the exception.
- A dictionary the source iterates in hash order is walked in ascending key order. Where the
  result does not depend on that order, the method walks an arbitrary order instead.
- Matrices are `seq<seq<real>>`.

## Model

| member | source | states |
|---|---|---|
| Pdg.SortSet | MCEq/data.py:133-134 | `sorted(set(...))`: the result is strictly ascending in Python 2 key order and holds exactly the elements of the set |
| Pdg.SortSeq | MCEq/data.py:169-170 | `sorted(a + b)` of two parent lists: non-decreasing and a permutation (same multiset) of its input |
| Matrices.ZeroStrictLower | MCEq/data.py:404-405 | `m[np.tril_indices(d, -1)] = 0`: zero strictly below the diagonal inside the d x d corner, every other entry unchanged |
| Records.DecodeTuple | MCEq/data.py:96-101 | a tuple decodes exactly when it has 2 or 4 integers, always into two (pdg, tag) pairs |
| Records.DecodeRoundTrip | MCEq/data.py:96-99 | decoding the 4-integer encoding of a channel gives the channel back; `(a, b)` decodes like `(a, 0, b, 0)` |
| Records.ReadRecord | MCEq/data.py:94-130 | one iteration of the record loop equals the specified scan step (decode, exclude, keep, alias, advance the read cursor) |
| Records.GenDbDictionary | MCEq/data.py:77-138 | the loop over all records returns the specified dictionary, including the decoding failure |
| Records.FoldFailsIff | MCEq/data.py:94-101 | reading the first n records succeeds exactly when every one of them decodes |
| Records.FoldFailsOnDecoding | MCEq/data.py:100-101 | the only error the reader raises is the decoding failure |
| Records.FoldCursor | MCEq/data.py:92-130 | after n records the read cursor is the sum of their `len_data`, kept or excluded |
| Records.FoldChannels | MCEq/data.py:103-117 | without equivalences, the matrix keys are exactly the decoded channels that avoid the excluded codes |
| Records.FoldParticles | MCEq/data.py:103-125 | without equivalences, the particle list holds exactly the parents and children of kept channels |
| Records.RelationsAreKeptChildren | MCEq/data.py:119-128 | a parent has a relation list exactly when it has kept children, and the list is those children in record order |
| Records.AliasSharesList | MCEq/data.py:121-128 | an equivalent parent gets the same matrix and shares the very same relation list as its original |
| Records.IntKeyedEquivalencesInert | MCEq/data.py:122-128 | equivalences keyed by bare integers never match a decoded tuple parent: the scan equals the scan without them |
| Records.DictionaryIgnoresIntKeyedEquivalences | MCEq/data.py:24-39 | the shipped SIBYLL and QGSJET equivalence tables leave the generated dictionary unchanged |
| Records.FinishShape | MCEq/data.py:132-138 | the returned parents are the sorted relation keys, the particles the sorted distinct seen keys, the matrices untouched |
| Records.PlainDictionaryHasPairKeys | MCEq/data.py:94-138 | every parent, particle and child of a generated dictionary is a (pdg, tag) pair |
| Records.DictionaryChannelsMatchRelations | MCEq/data.py:111-119 | a channel has a matrix exactly when its child is in its parent's relation list |
| Tables.Where | MCEq/data.py:337 | a list filter keeps exactly the members that pass the test, and never grows |
| Tables.WhereCode | MCEq/data.py:340-348 | a filter on `p[0]` raises TypeError exactly when some parent is a bare integer, else keeps exactly the passing pairs |
| Tables.WhereAscending | MCEq/data.py:337 | filtering a sorted parent list keeps it sorted |
| Tables.Restrict | MCEq/data.py:358-361 | popping the relations of non-parents leaves exactly the relation keys that are parents, with their lists |
| Tables.Regenerate | MCEq/data.py:356-364 | the regeneration loop keeps exactly the parents' relations and returns the sorted set of parents and children it reaches |
| Tables.StripLeptonsExact | MCEq/data.py:366-371 | stripping direct leptons fails exactly on a bare-integer child; otherwise each list keeps exactly its pair children outside 10 < abs(pdg) < 20 |
| Tables.StripDirectLeptons | MCEq/data.py:366-371 | the stripping loop equals the specified strip |
| Tables.RegroupExact | MCEq/data.py:214-225 | regrouping channels by parent lists every channel and only those, and reaches exactly the channels' ends |
| Tables.RegroupChannels | MCEq/data.py:214-225 | the rebuild loop over the decay matrices returns the specified relations and particle list |
| Tables.ChannelOrder | MCEq/data.py:217 | an iteration order of a set of channels lists exactly its members |
| Store.EquivalencesFor | MCEq/data.py:153-156 | SIBYLL or QGSJET names select integer-keyed tables; any other name leaves `eqv` unbound |
| Store.MergeEm | MCEq/data.py:169-174 | EM merge: parents are the sorted concatenation, particles the sorted union, and relations and matrices take the EM value on collision |
| Store.Described | MCEq/data.py:176-179 | the description ends with the model name and keeps an existing description followed by a newline |
| Store.InteractionIndexSelects | MCEq/data.py:147-181 | unknown model names raise, names that are neither SIBYLL nor QGSJET fail on `eqv`, and a loaded description names the model |
| Store.InteractionEquivalencesInert | MCEq/data.py:153-160 | the interaction index equals the one built without equivalences |
| Store.ModelIgnoresEquivalences | MCEq/data.py:157-160 | any integer-keyed equivalence table leaves the hadronic index unchanged |
| Store.InteractionKeysArePairs | MCEq/data.py:147-181 | every key of a loaded interaction index is a (pdg, tag) pair |
| Store.RelationKeysAreParents | MCEq/data.py:133-135 | every relation key is listed among the parents |
| Store.InteractionDb | MCEq/data.py:147-181 | `interaction_db` returns the specified index or error |
| Store.RebuiltChannels | MCEq/data.py:214-222 | after the rebuild a channel has a matrix exactly when its child is in its parent's list |
| Store.RebuiltParents | MCEq/data.py:223 | the rebuilt parents are the sorted relation keys |
| Store.RebuiltParticles | MCEq/data.py:220-225 | the rebuilt particles are the sorted distinct ends of the channels |
| Store.PopMuonExact | MCEq/data.py:205-208 | the four pops succeed exactly when all four muon channels exist (KeyError otherwise) and remove exactly those four |
| Store.HelicityIndexExact | MCEq/data.py:191-208 | the helicity swap succeeds exactly when each muon channel is in either table; custom matrices win, the four channels go |
| Store.PopMuonChannels | MCEq/data.py:205-208 | the pops return the specified result |
| Store.DecayDb | MCEq/data.py:183-227 | `decay_db` returns the specified index or error |
| Store.FillColumnsKeys | MCEq/data.py:236-239 | the cross-section index has exactly the listed projectiles |
| Store.FillColumnsLastWins | MCEq/data.py:238-239 | a projectile listed last holds its own column |
| Store.AddEmColumnsExact | MCEq/data.py:242-253 | EM columns enter exactly when none collides with a hadronic or earlier EM projectile, else the collision error; every column lands under its code |
| Store.AddEmColumnsOutcome | MCEq/data.py:247-252 | the EM loop succeeds exactly when every EM projectile is fresh, and then adds exactly those keys |
| Store.AddEmColumnsValues | MCEq/data.py:247-252 | after the EM loop, hadronic columns keep their values and each EM projectile holds its column |
| Store.EmCollisionStays | MCEq/data.py:247-250 | a collision among the first n EM projectiles makes the whole loop raise |
| Store.CrossSectionIndexExact | MCEq/data.py:229-255 | the index keys are the parents, the last listed column wins, and with EM on every EM column is present |
| Store.CsDb | MCEq/data.py:229-255 | `cs_db` returns the specified index or error |
| Store.WithRow | MCEq/data.py:265-267 | one loss row enters under the helicities 0, 1 and -1 and changes nothing else |
| Store.FillLossesKeys | MCEq/data.py:264-267 | the loss index has exactly a (code, helicity) key for every listed code and helicity 0, 1, -1 |
| Store.FillLossesLastWins | MCEq/data.py:264-267 | a code listed last holds its own row under each helicity |
| Store.WithEmRows | MCEq/data.py:270-274 | the electron and positron rows enter under the three helicities, other keys unchanged |
| Store.EmLossesAll | MCEq/data.py:268-274 | the EM loss loop raises KeyError when either dE/dX row is missing, else enters both |
| Store.ContinuousLossIndexExact | MCEq/data.py:257-276 | the parents are the sorted keys; every listed code and, with EM on, the e+/e- rows are present with their values |
| Store.LossRowsShape | MCEq/data.py:257-274 | the filled loss table holds every listed code under every helicity and the EM rows |
| Store.EnterRow | MCEq/data.py:265-267 | the helicity loop enters the specified row |
| Store.EnterEmRows | MCEq/data.py:270-274 | the EM helicity loop returns the specified rows or KeyError |
| Store.ContinuousLossDb | MCEq/data.py:257-276 | `continuous_loss_db` returns the specified index or error |
| InteractionTables.FilterParents | MCEq/data.py:336-355 | the parent filters keep exactly the parents that pass every active filter, raise only TypeError, and never on pair parents |
| InteractionTables.FilterSteps | MCEq/data.py:336-355 | the filter sequence returns the specified parents and outcome |
| InteractionTables.Settle | MCEq/data.py:356-371 | the regeneration and strip steps return the specified table and outcome |
| InteractionTables.Put | MCEq/data.py:448 | storing a modification under a key keeps every other key and mode, and the key finds the new matrix |
| InteractionTables.Register | MCEq/data.py:448 | a registration adds its channel to the registry and leaves other channels alone |
| InteractionTables.GenModMatrix | MCEq/data.py:380-407 | the modification matrix is the function's matrix with its strict lower triangle zeroed |
| InteractionTables.Interactions.constructor | MCEq/data.py:297-320 | a fresh table is empty, with no model name and an empty registry |
| InteractionTables.Interactions.Load | MCEq/data.py:322-371 | `load` sets the model name, and either raises the index error leaving the tables as they were, or installs the specified loaded table |
| InteractionTables.Interactions.Assign | MCEq/data.py:328-332 | the five table fields take the loaded values; name and registry are unchanged |
| InteractionTables.Interactions.RegisterEach | MCEq/data.py:486-488 | the companion loop registers the matrix for every listed channel in turn |
| InteractionTables.Interactions.ModeNamed | MCEq/data.py:435-440 | the scan for a same-mode entry answers whether one exists |
| InteractionTables.Interactions.AddPionCompanions | MCEq/data.py:462-488 | the charged-pion branch leaves the specified registry and result |
| InteractionTables.Interactions.AddKaonCompanions | MCEq/data.py:491-507 | the charged-kaon branch leaves the specified registry and result |
| InteractionTables.Interactions.AddCompanions | MCEq/data.py:456-524 | the isospin dispatch over the secondary leaves the specified registry and result |
| InteractionTables.Interactions.SetModPprod | MCEq/data.py:409-527 | `_set_mod_pprod`, in its intended form without the raising log call at lines 450-451, leaves the specified registry and returns the specified result or exception |
| InteractionTables.CountNonzeroRaises | MCEq/data.py:447-451 | as written, a call that stores its entry raises TypeError right after storing, never reports a change and adds no isospin companion; otherwise it agrees with the intended version |
| InteractionTables.CountNonzeroExample | MCEq/data.py:447-451 | a first proton to pi+ modification without isospin symmetry: the intended version reports the change, the code as written raises TypeError |
| InteractionTables.SettledShape | MCEq/data.py:356-371 | after regeneration and stripping: parents and matrices stay; particles are the sorted reach; lists only shrink; only stripping can raise |
| InteractionTables.IndexConsistent | MCEq/data.py:147-181 | every related channel of a loaded interaction index has its matrix |
| InteractionTables.WithEmConsistent | MCEq/data.py:162-174 | merging the EM tables keeps every related channel backed by a matrix |
| InteractionTables.LoadedConsistent | MCEq/data.py:322-371 | loading keeps every related channel backed by a matrix |
| InteractionTables.LoadKeepsChannels | MCEq/data.py:322-371 | after `load` from the store, every related channel has its matrix |
| InteractionTables.StoreIndexLoadsCleanly | MCEq/data.py:336-371 | loading an index read from the store never raises |
| InteractionTables.LoadRegeneratesIndex | MCEq/data.py:356-364 | with a regenerating option, relations are restricted to the kept parents and particles are the sorted reach |
| InteractionTables.LoadStripsDirectLeptons | MCEq/data.py:366-371 | with the option or a DPMJET model, each child list loses exactly its direct leptons |
| InteractionTables.AllowedProjectilesDropAll | MCEq/data.py:350-355 | an integer `allowed_projectiles` list removes every tuple parent and every relation |
| InteractionTables.DefaultsDropAllProjectiles | mceq_config.py:203 | with the shipped settings `load` keeps no parent at all |
| InteractionTables.GetMatrixRaises | MCEq/data.py:557-575 | `get_matrix` raises KeyError exactly for an unknown parent and the empty-matrix error exactly for an unrelated child; with the veto, a pair child raises TypeError |
| InteractionTables.VetoPicksLighter | MCEq/data.py:563-575 | the leading-meson veto serves the channel with the smaller sum over columns 20-49, or each its own on a tie |
| InteractionTables.RegisteredModificationApplies | MCEq/data.py:580-588 | after one registration, `get_matrix` returns the entrywise product with the triangle-zeroed modification |
| InteractionTables.RegisterAllGrows | MCEq/data.py:486-488 | registering a list of channels only adds keys and modes |
| InteractionTables.CompanionsGrow | MCEq/data.py:456-524 | in the intended version, the isospin companions only add keys and modes, also when they raise |
| InteractionTables.StoresBeforeRaising | MCEq/data.py:447-448 | after any call the requested modification is stored or an equal-mode one was already there |
| InteractionTables.RegistrationIdempotent | MCEq/data.py:428-440 | registering the same modification again reports no change and leaves the registry as it is |
| InteractionTables.RejectsOtherPrimaries | MCEq/data.py:425-426 | with isospin symmetry on, a primary other than p or n raises exactly, before any change |
| InteractionTables.FirstRegisteredWins | MCEq/data.py:584-588 | a channel that already has a modification keeps serving the first one |
| InteractionTables.PionMirrorOnly | MCEq/data.py:462-469 | in the intended version, a pion modification mirrors onto (n, -pi) and touches no unflavored channel when the parents are pairs |
| InteractionTables.PairParentsSkipUnflavored | MCEq/data.py:469 | the integer test `221 in parents` never matches pair parents, so only the mirror is added |
| InteractionTables.PionAveragingRaises | MCEq/data.py:470-484 | in the intended version, with integer parents and the opposite pion already modified, the averaging raises TypeError after storing |
| InteractionTables.NeutronPrimaryQuirk | MCEq/data.py:456-459 | in the intended version, the primary is reset to the proton, so a neutron primary with a proton secondary registers (n, n) |
| DecayTables.Selected | MCEq/data.py:631 | the selected parents are exactly the known parents in the requested list |
| DecayTables.Grown | MCEq/data.py:629-636 | the grown list holds the selected parents and exactly the decay products of selected parents |
| DecayTables.DecayParents | MCEq/data.py:628-643 | on success the decay parents are the grown list minus the disabled codes |
| DecayTables.SelectParents | MCEq/data.py:628-643 | the selection loop returns the specified parents and outcome |
| DecayTables.Decays.constructor | MCEq/data.py:605-613 | a fresh decay table is empty, with plain relations, and remembers its default data set |
| DecayTables.Decays.Load | MCEq/data.py:615-652 | `load` uses the default data set when none is given, and raises leaving the table unchanged or installs the specified table, whose relations are a default dictionary exactly under helicity-dependent decays |
| DecayTables.Decays.Assign | MCEq/data.py:622-626 | the table fields take the loaded values |
| DecayTables.Decays.Children | MCEq/data.py:661-667 | `children` returns the relation list exactly for a known parent, else the unknown-parent error |
| DecayTables.Decays.GetMatrix | MCEq/data.py:669-686 | `get_matrix` leaves the tables and returns the result the lookup specifies, entering an unknown parent first on a default dictionary |
| DecayTables.DecayIndexShape | MCEq/data.py:183-227 | a decay index lists each related parent once in order and has a matrix for every listed child |
| DecayTables.DictionaryShape | MCEq/data.py:132-138 | a generated dictionary's parents are its sorted relation keys and every related channel has a matrix |
| DecayTables.DecayLoadedConsistent | MCEq/data.py:644-652 | loading keeps every related channel backed by a matrix |
| DecayTables.DecayLoadFollowsProducts | MCEq/data.py:629-652 | requested parents keep their products as parents with their own decays; particles are the sorted reach |
| DecayTables.StoreDecaysLoadCleanly | MCEq/data.py:615-652 | loading a store index with pair keys never raises |
| DecayTables.DecayLookupExact | MCEq/data.py:669-686 | `get_matrix` raises KeyError exactly for an unknown parent of plain relations, and the empty-matrix error exactly for an unknown parent of the default dictionary of line 214 or an unrelated child; otherwise it returns the channel's matrix. Only the default dictionary changes: the unknown parent gets an empty list, so `children` then returns `[]` |
| ScalarTables.Mbarn2cm2Exact | MCEq/data.py:699-706 | the mbarn to cm^2 factor derived from the GeV constants is exactly 1e-27 |
| ScalarTables.GetCsByGroup | MCEq/data.py:740-774 | `get_cs` returns the scaled column of the group's stand-in, zeros for leptons, and KeyError exactly when the stand-in is missing |
| ScalarTables.FallbackIsRepresentative | MCEq/data.py:760-774 | an untabulated hadron gets exactly the cross section of its stand-in (K+, proton or pi+) |
| ScalarTables.UnitsAgree | MCEq/data.py:755-759 | the cm^2 result is 1e-27 times the mbarn result, and both fail together |
| ScalarTables.StoredProjectileOwnColumn | MCEq/data.py:758-759 | a listed projectile gets its own column, scaled by the unit |
| Compaction.PairKeys | MCEq/data_utils.py:137-141 | the keys that unpack into `proj, sec` are the 2-tuples of the dictionary |
| Compaction.CreateSecondaryDict | MCEq/data_utils.py:130-155 | the index loop returns the specified index |
| Compaction.SecondaryIndexExact | MCEq/data_utils.py:130-155 | the index never fails; it lists every projectile, exactly its positive-sum secondaries, in increasing order |
| Compaction.IndexOfShape | MCEq/data_utils.py:136-153 | walking the pairs in sorted order never trips the duplicate assertion and indexes every pair |
| Compaction.SortedCodes | MCEq/data_utils.py:228 | `sorted(pprod_di)`: exactly the projectiles, strictly increasing |
| Compaction.Contribute | MCEq/data_utils.py:211-217 | a contribution adds its key, creates the entry with its matrix or adds the matrix to the entry already there, and leaves every other entry alone |
| Compaction.ContributeAllValue | MCEq/data_utils.py:211-217 | after a sequence of contributions each entry is its old entry with the matrices of its key accumulated in order: the first creates an absent entry, every later one is added |
| Compaction.FeedDownIsChain | MCEq/data_utils.py:157-219 | `follow_chained_decay` adds exactly the contributions of its decay chain, in order, and ends the same way |
| Compaction.FeedChildrenIsChain | MCEq/data_utils.py:180-217 | the loop over daughters adds exactly the contributions of their chains, in order |
| Compaction.ChainFromMother | MCEq/data_utils.py:192-217 | every contribution is a product above the 1e-40 cut filed under the real mother and a standard daughter or its prompt code |
| Compaction.StandardDaughterContributes | MCEq/data_utils.py:180-217 | a standard daughter whose product passes the cut contributes that product, `ddi[(last, d)] . mat`, under `(mother, relabelled d)` |
| Compaction.FeedSecondariesIsChain | MCEq/data_utils.py:244-255 | the second loop adds exactly the contributions of its secondaries' chains, all under the projectile |
| Compaction.CopyDirectValues | MCEq/data_utils.py:233-242 | the first loop sets each non-skipped standard secondary's entry to its yield matrix and leaves every other key alone; whether it raises does not depend on the dictionary |
| Compaction.ProjectilesKeep | MCEq/data_utils.py:228-255 | the projectile loop leaves the entries of projectiles it does not visit as they are |
| Compaction.OneProjectileValues | MCEq/data_utils.py:233-255 | a projectile's entries after its two loops are its copies with the feed-down accumulated onto them |
| Compaction.ProjectilesValues | MCEq/data_utils.py:228-255 | each visited allowed projectile's entries end as its copies with its feed-down accumulated onto them |
| Compaction.ProjectilesStepPass | MCEq/data_utils.py:233-242 | a completed projectile loop completed the first loop of every allowed projectile it visited |
| Compaction.ConvertedValues | MCEq/data_utils.py:222-255 | after a successful conversion every entry of an allowed projectile is its copy (if any) with its feed-down contributions accumulated in order |
| Compaction.CopiedThenFed | MCEq/data_utils.py:233-255 | a positive standard channel starts from its own yield matrix and the feed-down is added to it, never written over it |
| Compaction.ShortLivedExists | MCEq/data_utils.py:201-205 | the prompt test holds exactly when some intermediate lives no longer than the K0S |
| Compaction.RelabelExact | MCEq/data_utils.py:197-207 | a daughter is relabelled exactly when it is a prompt lepton of a short-lived chain, to sign(d)(7000 + abs(d)) |
| Compaction.FeedDownExtends | MCEq/data_utils.py:157-219 | the feed-down only adds entries for the real mother and keeps every other entry |
| Compaction.NegligibleProductsSkipped | MCEq/data_utils.py:186-190 | daughters whose product matrix sums below 1e-40 change nothing |
| Compaction.CopyDirectShape | MCEq/data_utils.py:233-242 | the first loop only writes the projectile's entries and copies every non-skipped standard secondary |
| Compaction.FeedSecondariesExtends | MCEq/data_utils.py:244-255 | the second loop only touches the projectile's entries |
| Compaction.UndecayedSecondaryAbortsFeed | MCEq/data_utils.py:253 | a non-standard secondary without decays raises KeyError in the log call |
| Compaction.ProjectilesShape | MCEq/data_utils.py:228-255 | the projectile loop adds entries only for allowed projectiles and copies every standard secondary |
| Compaction.UndecayedSecondaryAbortsLoop | MCEq/data_utils.py:244-255 | an undecayed secondary of an allowed projectile aborts the projectile loop |
| Compaction.ConvertedShape | MCEq/data_utils.py:222-255 | compact entries belong to allowed projectiles of the yields; every positive standard channel is copied |
| Compaction.UndecayedSecondaryAborts | MCEq/data_utils.py:222-255 | a positive channel to an undecayed non-standard secondary makes the conversion fail |
| Compaction.Compactor.constructor | MCEq/data_utils.py:128 | the compact dictionary starts empty |
| Compaction.Compactor.FollowChainedDecay | MCEq/data_utils.py:157-219 | the recursive method leaves the specified dictionary and outcome |
| Compaction.Compactor.CopyStandard | MCEq/data_utils.py:233-242 | the copy loop leaves the specified dictionary |
| Compaction.Compactor.FeedRemaining | MCEq/data_utils.py:244-255 | the feed loop leaves the specified dictionary |
| Compaction.Compactor.ProjectileLoop | MCEq/data_utils.py:228-255 | the loop over sorted projectiles leaves the specified dictionary |
| Compaction.ConvertToCompact | MCEq/data_utils.py:222-255 | indexing both dictionaries succeeds, and the conversion leaves the specified dictionary and outcome |
| LowEnergy.Sources | MCEq/data_utils.py:301-314 | a file name replaces the dictionaries by the files' contents |
| LowEnergy.CountBelow | MCEq/data_utils.py:322 | the transition index is at most the grid length |
| LowEnergy.Indices | MCEq/data_utils.py:327-331 | the window holds 2h + 3 consecutive indices from t - h - 1, or none when h < -1 |
| LowEnergy.Scales | MCEq/data_utils.py:332 | one weight per window index |
| LowEnergy.Reverse | MCEq/data_utils.py:335 | the low-energy weights are the window weights in reverse |
| LowEnergy.ZeroBefore | MCEq/data_utils.py:361 | clearing the leading columns keeps the matrix shape |
| LowEnergy.ZeroFrom | MCEq/data_utils.py:363 | clearing the trailing columns keeps the matrix shape |
| LowEnergy.LastHit | MCEq/data_utils.py:362 | the index that wins a fancy-indexed write designates the column |
| LowEnergy.ScaleColumns | MCEq/data_utils.py:362-364 | weighting the window columns keeps the matrix shape |
| LowEnergy.ExtendToLowEnergies | MCEq/data_utils.py:272-382 | the extension returns the specified dictionary or exception |
| LowEnergy.MergeKeys | MCEq/data_utils.py:340-376 | the key loop, in any order, returns the specified merge or its first exception |
| LowEnergy.MergeRejects | MCEq/data_utils.py:349-357 | a tuple key without a low-energy dictionary raises TypeError; an unknown process raises unless unknown cross sections are allowed |
| LowEnergy.MergeEntries | MCEq/data_utils.py:340-376 | a successful extension keeps every key; it blends exactly the processes both models know and adds `le_ext` |
| LowEnergy.TransitionIndexSplitsGrid | MCEq/data_utils.py:322 | on an ascending grid the transition index separates energies below the transition from the rest |
| LowEnergy.DefaultWindow | mceq_config.py:170 | three interpolation bins give the five indices t - 2 .. t + 2 |
| LowEnergy.EmptyWindow | MCEq/data_utils.py:360-372 | the window is empty exactly for fewer than -2 bins, and then the matrices are added untouched |
| LowEnergy.WeightsSumToOne | MCEq/data_utils.py:332-335 | inside the window a column's two weights add up to one |
| LowEnergy.ScalesAreLinear | MCEq/data_utils.py:332 | the weights rise linearly from 0 at the first index to 1 at the last |
| LowEnergy.BlendRegions | MCEq/data_utils.py:359-372 | low-energy matrix below the window, high-energy above, linear mix inside |
| LowEnergy.WindowAtGridStartClearsMiddle | MCEq/data_utils.py:361-363 | a window starting at a negative index zeroes every column between its end and the wrapped start |
| Solvers.SolvNumpy | MCEq/solvers.py:50-92 | integrates in place to the state after the steps, raises ZeroDivision exactly for zero steps, and returns the array and the checkpoints |
| Solvers.AddScaled | MCEq/solvers.py:79 | `phc += d * dx` leaves the Euler update in the array |
| Solvers.Csrmv | MCEq/solvers.py:148-151 | the sparse matrix-vector call leaves alpha m x + beta y in y |
| Solvers.Saxpy | MCEq/solvers.py:152-154 | the saxpy call leaves y + a x in y |
| Solvers.DeviceDeltaMatches | MCEq/solvers.py:146-154 | the two device products compute the same change as `imc.dot(phc) + dmc.dot(ric * phc)` |
| Solvers.CudaSparseContext.constructor | MCEq/solvers.py:120-126 | the context holds the matrices and a zero change buffer of the matrix size |
| Solvers.CudaSparseContext.AllocGridSol | MCEq/solvers.py:128-130 | a fresh zero nsols x dim buffer, cursor 0 |
| Solvers.CudaSparseContext.DumpSol | MCEq/solvers.py:132-134 | row `curr_sol_idx` gets the current state, every other row is unchanged, the cursor advances |
| Solvers.CudaSparseContext.GetGridsol | MCEq/solvers.py:137-138 | returns the buffer's rows |
| Solvers.CudaSparseContext.SetPhi | MCEq/solvers.py:140-141 | a fresh state buffer holding the given state |
| Solvers.CudaSparseContext.GetPhi | MCEq/solvers.py:143-144 | returns the current state |
| Solvers.CudaSparseContext.SolveStep | MCEq/solvers.py:146-154 | one device step leaves the change in the change buffer and the Euler update in the state |
| Solvers.SolvCudaSparse | MCEq/solvers.py:157-197 | the device run reaches the same state as the host run, raises exactly for zero steps, and returns the saved checkpoints padded with zero rows |
| Solvers.Run | MCEq/solvers.py:185-191 | the step loop reaches the evolved state and fills the buffer with the checkpoints |
| Solvers.SaveRow | MCEq/solvers.py:188-191 | saving a checkpoint appends the current state to the filled rows |
| Solvers.HistoryStep | MCEq/solvers.py:78-79 | each state is one Euler step from the previous one |
| Solvers.TraceStep | MCEq/solvers.py:83-86 | a checkpoint is appended exactly when the grid index under the cursor is the step |
| Solvers.CheckpointsAreStates | MCEq/solvers.py:83-86 | the i-th checkpoint is the state after step grid[i], with matched indices strictly increasing |
| Solvers.CheckpointsAreEvolved | MCEq/solvers.py:78-86 | every checkpoint is the evolved state after its grid step |
| Solvers.CursorCountsBelow | MCEq/solvers.py:83-86 | on an increasing grid the cursor counts the grid indices already passed |
| Solvers.AllCheckpointsSaved | MCEq/solvers.py:83-86 | an increasing grid inside the run saves one checkpoint per index |
| Solvers.CursorStopsAtDisorder | MCEq/solvers.py:83-86 | a negative or non-increasing grid index stops the saving there |
| Solvers.NothingHappensWithoutMatrices | MCEq/solvers.py:79 | with zero matrices the state never changes |
| Solvers.UnitDecayLaw | MCEq/solvers.py:79 | a unit decay matrix with constant density and step multiplies each component by (1 + r h) per step |

## Left out

- Reading HDF5, pickle and BZ2 files is not modelled. File contents are parameters: the
  `Db` record, and the `heFile`/`leFile` dictionaries of the low-energy extension. Saving
  files and deleting the cached `.ppd` are left out.
- Building each CSR block matrix and cutting it to the energy range (`csr_matrix(...)[cuts,
  min:max].toarray()`) is the `Dense` function parameter. The energy-cut search in
  `_eval_energy_cuts` is not part of this model.
- `misc.info`, timing and every log message are left out. `misc.py` is not part of this model.
- The `.format` applied to the return value of `info` at `MCEq/data.py:442-445` is assumed to
  succeed. It raises if `info` returns nothing, before anything is stored.
- `normalize_hadronic_model_name` is not part of this model. Model names are taken as already
  normalised.
- `is_charm_pdgid`, particle lifetimes (`ctau`), `x_func` and `gen_xmat` are function
  parameters.
- The MKL and `_odepack` solvers are out of scope. So are the cupy/cuBLAS device set-up,
  floating-point precision, and the `set_matrices` CSR conversion.
- `print_mod_pprod`, `__getitem__` and `__contains__` are left out.
- The copy of `ebins`/`evec`/`mname` in `convert_to_compact` is not modelled, nor is its call
  of `extend_to_low_energies`. The low-energy extension is modelled on its own.
- Floating point is modelled as exact reals. The unit constants compose exactly to 1e-27.
- Python 2 dictionary iteration order is hash order. The model sorts the keys or allows any
  order, except for the inner dictionaries of `mod_pprod`, which are ordered by insertion.
- `InteractionTables.Put`, `InteractionTables.MatrixOf`, `InteractionTables.FirstRegisteredWins`:
  the registry of one channel keeps its modifications in insertion order, where Python 2 iterates
  them in hash order. "The first modification applies" holds under this choice only.
- `Compaction.Compactor.FollowChainedDecay`: the recursion is bounded by a fuel parameter and
  fails with `RecursionDepth` when the fuel runs out. This stands in for Python's recursion
  limit, whose value is not modelled.
- `Compaction.SecondaryIndexExact`: a metadata key is always skipped. In Python a two-character
  string key would also unpack into `proj, sec`; the dictionaries in question carry no such key.
- `Solvers.SolvNumpy`, `Solvers.SolvCudaSparse`: they require square matrices of the state's
  size and at least `nsteps` step sizes and densities. NumPy's shape and index errors
  otherwise are not modelled.
- `LowEnergy.ExtendToLowEnergies`: it requires every process matrix to be a square over the
  energy grid. NumPy's broadcasting errors for other shapes are not modelled.
- `InteractionTables.Interactions.GetMatrix` carries no contract of its own. Its behaviour is
  stated by `GetMatrixRaises`, `VetoPicksLighter`, `RegisteredModificationApplies` and
  `FirstRegisteredWins` about the function it returns.
- `DecayTables.DecayParents`: a requested parent without a relation raises KeyError. On the
  default dictionary of helicity-dependent decays Python would enter it with no children instead.
  That case cannot arise there, because those parents are exactly the relation keys
  (`DecayIndexShape`).
- `InteractionTables.Settle`: when stripping raises, the model keeps every child list unstripped.
  Python has already stripped the lists before the failing one. No index from the store makes
  stripping raise (`StoreIndexLoadsCleanly`).
- `InteractionTables.Interactions.constructor`, `DecayTables.Decays.constructor`: they start
  with empty tables. In Python the interaction tables start as `None` and the decay tables do not
  exist, so a lookup before `load` raises TypeError or AttributeError where the model gives
  KeyError.
- Device buffers are host arrays. Data transfer and GPU concurrency are not modelled.

## Findings

| source | as written | input that shows it | evidently intended | confidence | as-written member | corrected member |
|---|---|---|---|---|---|---|
| MCEq/data.py:450-451 | the log call passes `dtype=np.float` to `np.count_nonzero`, which takes no `dtype` keyword. So `_set_mod_pprod` raises TypeError right after storing the entry at line 448. It never returns True and never adds the isospin companions of lines 453-524 | a first proton to pi+ modification on an empty registry, isospin symmetry off | the log line only reports the strength. The function returns True and, under isospin symmetry, adds the companions | not executed; high | InteractionTables.CountNonzeroRaises | InteractionTables.Interactions.SetModPprod |
