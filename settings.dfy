/** The configuration values the core reads, passed in explicitly instead of a
    process-wide dictionary. */
module Settings {
  import opened Pdg

  datatype Config = Config(
    disabledParticles: seq<int>,       // adv_set.disabled_particles
    enableEm: bool,                    // enable_em
    muonHelicityDependence: bool,      // muon_helicity_dependence
    disableCharmPprod: bool,           // adv_set.disable_charm_pprod
    disableInteractionsOfUnstable: bool, // adv_set.disable_interactions_of_unstable
    allowedProjectiles: seq<Key>,      // adv_set.allowed_projectiles (bare integers)
    disableDirectLeptons: bool,        // adv_set.disable_direct_leptons
    disableLeadingMesons: bool,        // adv_set.disable_leading_mesons
    useIsospinSym: bool,               // use_isospin_sym
    disableDecays: seq<int>,           // adv_set.disable_decays
    disableDpmjetCharm: bool,          // adv_set.disable_dpmjet_charm
    heLeTransition: real,              // low_energy_extension.he_le_transition
    nbinsInterp: int,                  // low_energy_extension.nbins_interp
    useUnknownCs: bool,                // low_energy_extension.use_unknown_cs
    standardParticles: seq<int>)       // standard_particles

  /** The shipped defaults. */
  const Defaults := Config(
    [10313], true, false, false, false,
    [Code(2212), Code(2112), Code(211), Code(321), Code(130), Code(11), Code(22)],
    false, false, true, [], true, 80.0, 3, true,
    [11, 12, 13, 14, 16, 211, 321, 2212, 2112, 3122, 411, 421, 431,
     -11, -12, -13, -14, -16, -211, -321, -2212, -2112, -3122, -411, -421, -431,
     22, 130, 310])
}
