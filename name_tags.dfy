/**
 * The substring tests the scripts apply to particle names (`'quark' in name`
 * and the like), evaluated on the fifteen table names.
 *
 * Each fact about one name and one substring has a lemma of its own: proved
 * together, the facts about a name make the verifier search far longer than
 * the sum of their separate proofs, so they are kept apart and combined
 * only through their postconditions (`RowTags`).
 */
module NameTags {
  import opened Strings
  import opened ParticleData

  /** Which of the substrings the scripts test names for occur in a name. */
  datatype Tags = Tags(neutrino: bool, electron: bool, muon: bool, tau: bool, quark: bool, boson: bool)

  function TagsOf(name: string): Tags
  {
    Tags(Contains(name, "neutrino"), Contains(name, "electron"), Contains(name, "muon"),
         Contains(name, "tau"), Contains(name, "quark"), Contains(name, "boson"))
  }

  /** The tags of the table names, in table order. */
  const TableTags: seq<Tags> := [
    Tags(true, true, false, false, false, false),
    Tags(true, false, true, false, false, false),
    Tags(true, false, false, true, false, false),
    Tags(false, true, false, false, false, false),
    Tags(false, false, false, false, true, false),
    Tags(false, false, false, false, true, false),
    Tags(false, false, false, false, true, false),
    Tags(false, false, true, false, false, false),
    Tags(false, false, false, false, true, false),
    Tags(false, false, false, true, false, false),
    Tags(false, false, false, false, true, false),
    Tags(false, false, false, false, true, false),
    Tags(false, false, false, false, false, true),
    Tags(false, false, false, false, false, true),
    Tags(false, false, false, false, false, true)]

  /** The tags of the name in row `i` of the coefficient table. */
  lemma RowTags(i: int)
    requires 0 <= i < |Coeffs|
    ensures TagsOf(Coeffs[i].0) == TableTags[i]
  {
    if i == 0 {
      ElectronNeutrinoTags();
    } else if i == 1 {
      MuonNeutrinoTags();
    } else if i == 2 {
      TauNeutrinoTags();
    } else if i == 3 {
      ElectronTags();
    } else if i == 4 {
      UpQuarkTags();
    } else if i == 5 {
      DownQuarkTags();
    } else if i == 6 {
      StrangeQuarkTags();
    } else if i == 7 {
      MuonTags();
    } else if i == 8 {
      CharmQuarkTags();
    } else if i == 9 {
      TauTags();
    } else if i == 10 {
      BottomQuarkTags();
    } else if i == 11 {
      TopQuarkTags();
    } else if i == 12 {
      WBosonTags();
    } else if i == 13 {
      ZBosonTags();
    } else if i == 14 {
      HiggsBosonTags();
    }
  }

  lemma ElectronNeutrinoTags()
    ensures TagsOf("electron_neutrino") == Tags(true, true, false, false, false, false)
  {
    ElectronNeutrinoHasNeutrino();
    ElectronNeutrinoHasElectron();
    ElectronNeutrinoLacksMuon();
    ElectronNeutrinoLacksTau();
    ElectronNeutrinoLacksQuark();
    ElectronNeutrinoLacksBoson();
  }

  lemma ElectronNeutrinoHasNeutrino()
    ensures Contains("electron_neutrino", "neutrino")
  {
    assert MatchAt("electron_neutrino", "neutrino", 9);
  }

  lemma ElectronNeutrinoHasElectron()
    ensures Contains("electron_neutrino", "electron")
  {
    assert MatchAt("electron_neutrino", "electron", 0);
  }

  lemma ElectronNeutrinoLacksMuon()
    ensures !Contains("electron_neutrino", "muon")
  {
    MissingChar("electron_neutrino", "muon", 'm');
  }

  lemma ElectronNeutrinoLacksTau()
    ensures !Contains("electron_neutrino", "tau")
  {
    MissingChar("electron_neutrino", "tau", 'a');
  }

  lemma ElectronNeutrinoLacksQuark()
    ensures !Contains("electron_neutrino", "quark")
  {
    MissingChar("electron_neutrino", "quark", 'q');
  }

  lemma ElectronNeutrinoLacksBoson()
    ensures !Contains("electron_neutrino", "boson")
  {
    MissingChar("electron_neutrino", "boson", 'b');
  }

  lemma MuonNeutrinoTags()
    ensures TagsOf("muon_neutrino") == Tags(true, false, true, false, false, false)
  {
    MuonNeutrinoHasNeutrino();
    MuonNeutrinoLacksElectron();
    MuonNeutrinoHasMuon();
    MuonNeutrinoLacksTau();
    MuonNeutrinoLacksQuark();
    MuonNeutrinoLacksBoson();
  }

  lemma MuonNeutrinoHasNeutrino()
    ensures Contains("muon_neutrino", "neutrino")
  {
    assert MatchAt("muon_neutrino", "neutrino", 5);
  }

  lemma MuonNeutrinoLacksElectron()
    ensures !Contains("muon_neutrino", "electron")
  {
    MissingChar("muon_neutrino", "electron", 'l');
  }

  lemma MuonNeutrinoHasMuon()
    ensures Contains("muon_neutrino", "muon")
  {
    assert MatchAt("muon_neutrino", "muon", 0);
  }

  lemma MuonNeutrinoLacksTau()
    ensures !Contains("muon_neutrino", "tau")
  {
    MissingChar("muon_neutrino", "tau", 'a');
  }

  lemma MuonNeutrinoLacksQuark()
    ensures !Contains("muon_neutrino", "quark")
  {
    MissingChar("muon_neutrino", "quark", 'q');
  }

  lemma MuonNeutrinoLacksBoson()
    ensures !Contains("muon_neutrino", "boson")
  {
    MissingChar("muon_neutrino", "boson", 'b');
  }

  lemma TauNeutrinoTags()
    ensures TagsOf("tau_neutrino") == Tags(true, false, false, true, false, false)
  {
    TauNeutrinoHasNeutrino();
    TauNeutrinoLacksElectron();
    TauNeutrinoLacksMuon();
    TauNeutrinoHasTau();
    TauNeutrinoLacksQuark();
    TauNeutrinoLacksBoson();
  }

  lemma TauNeutrinoHasNeutrino()
    ensures Contains("tau_neutrino", "neutrino")
  {
    assert MatchAt("tau_neutrino", "neutrino", 4);
  }

  lemma TauNeutrinoLacksElectron()
    ensures !Contains("tau_neutrino", "electron")
  {
    MissingChar("tau_neutrino", "electron", 'l');
  }

  lemma TauNeutrinoLacksMuon()
    ensures !Contains("tau_neutrino", "muon")
  {
    MissingChar("tau_neutrino", "muon", 'm');
  }

  lemma TauNeutrinoHasTau()
    ensures Contains("tau_neutrino", "tau")
  {
    assert MatchAt("tau_neutrino", "tau", 0);
  }

  lemma TauNeutrinoLacksQuark()
    ensures !Contains("tau_neutrino", "quark")
  {
    MissingChar("tau_neutrino", "quark", 'q');
  }

  lemma TauNeutrinoLacksBoson()
    ensures !Contains("tau_neutrino", "boson")
  {
    MissingChar("tau_neutrino", "boson", 'b');
  }

  lemma ElectronTags()
    ensures TagsOf("electron") == Tags(false, true, false, false, false, false)
  {
    ElectronLacksNeutrino();
    ElectronHasElectron();
    ElectronLacksMuon();
    ElectronLacksTau();
    ElectronLacksQuark();
    ElectronLacksBoson();
  }

  lemma ElectronLacksNeutrino()
    ensures !Contains("electron", "neutrino")
  {
    MissingChar("electron", "neutrino", 'u');
  }

  lemma ElectronHasElectron()
    ensures Contains("electron", "electron")
  {
    assert MatchAt("electron", "electron", 0);
  }

  lemma ElectronLacksMuon()
    ensures !Contains("electron", "muon")
  {
    MissingChar("electron", "muon", 'm');
  }

  lemma ElectronLacksTau()
    ensures !Contains("electron", "tau")
  {
    MissingChar("electron", "tau", 'a');
  }

  lemma ElectronLacksQuark()
    ensures !Contains("electron", "quark")
  {
    MissingChar("electron", "quark", 'q');
  }

  lemma ElectronLacksBoson()
    ensures !Contains("electron", "boson")
  {
    MissingChar("electron", "boson", 'b');
  }

  lemma UpQuarkTags()
    ensures TagsOf("up_quark") == Tags(false, false, false, false, true, false)
  {
    UpQuarkLacksNeutrino();
    UpQuarkLacksElectron();
    UpQuarkLacksMuon();
    UpQuarkLacksTau();
    UpQuarkHasQuark();
    UpQuarkLacksBoson();
  }

  lemma UpQuarkLacksNeutrino()
    ensures !Contains("up_quark", "neutrino")
  {
    MissingChar("up_quark", "neutrino", 'n');
  }

  lemma UpQuarkLacksElectron()
    ensures !Contains("up_quark", "electron")
  {
    MissingChar("up_quark", "electron", 'e');
  }

  lemma UpQuarkLacksMuon()
    ensures !Contains("up_quark", "muon")
  {
    MissingChar("up_quark", "muon", 'm');
  }

  lemma UpQuarkLacksTau()
    ensures !Contains("up_quark", "tau")
  {
    MissingChar("up_quark", "tau", 't');
  }

  lemma UpQuarkHasQuark()
    ensures Contains("up_quark", "quark")
  {
    assert MatchAt("up_quark", "quark", 3);
  }

  lemma UpQuarkLacksBoson()
    ensures !Contains("up_quark", "boson")
  {
    MissingChar("up_quark", "boson", 'b');
  }

  lemma DownQuarkTags()
    ensures TagsOf("down_quark") == Tags(false, false, false, false, true, false)
  {
    DownQuarkLacksNeutrino();
    DownQuarkLacksElectron();
    DownQuarkLacksMuon();
    DownQuarkLacksTau();
    DownQuarkHasQuark();
    DownQuarkLacksBoson();
  }

  lemma DownQuarkLacksNeutrino()
    ensures !Contains("down_quark", "neutrino")
  {
    MissingChar("down_quark", "neutrino", 'e');
  }

  lemma DownQuarkLacksElectron()
    ensures !Contains("down_quark", "electron")
  {
    MissingChar("down_quark", "electron", 'e');
  }

  lemma DownQuarkLacksMuon()
    ensures !Contains("down_quark", "muon")
  {
    MissingChar("down_quark", "muon", 'm');
  }

  lemma DownQuarkLacksTau()
    ensures !Contains("down_quark", "tau")
  {
    MissingChar("down_quark", "tau", 't');
  }

  lemma DownQuarkHasQuark()
    ensures Contains("down_quark", "quark")
  {
    assert MatchAt("down_quark", "quark", 5);
  }

  lemma DownQuarkLacksBoson()
    ensures !Contains("down_quark", "boson")
  {
    MissingChar("down_quark", "boson", 'b');
  }

  lemma StrangeQuarkTags()
    ensures TagsOf("strange_quark") == Tags(false, false, false, false, true, false)
  {
    StrangeQuarkLacksNeutrino();
    StrangeQuarkLacksElectron();
    StrangeQuarkLacksMuon();
    StrangeQuarkLacksTau();
    StrangeQuarkHasQuark();
    StrangeQuarkLacksBoson();
  }

  lemma StrangeQuarkLacksNeutrino()
    ensures !Contains("strange_quark", "neutrino")
  {
    MissingChar("strange_quark", "neutrino", 'i');
  }

  lemma StrangeQuarkLacksElectron()
    ensures !Contains("strange_quark", "electron")
  {
    MissingChar("strange_quark", "electron", 'l');
  }

  lemma StrangeQuarkLacksMuon()
    ensures !Contains("strange_quark", "muon")
  {
    MissingChar("strange_quark", "muon", 'm');
  }

  lemma StrangeQuarkLacksTau()
    ensures !Contains("strange_quark", "tau")
  {
    MissingCharAfter("strange_quark", "tau", 't', 'a', 1, 2, 11);
  }

  lemma StrangeQuarkHasQuark()
    ensures Contains("strange_quark", "quark")
  {
    assert MatchAt("strange_quark", "quark", 8);
  }

  lemma StrangeQuarkLacksBoson()
    ensures !Contains("strange_quark", "boson")
  {
    MissingChar("strange_quark", "boson", 'b');
  }

  lemma MuonTags()
    ensures TagsOf("muon") == Tags(false, false, true, false, false, false)
  {
    MuonLacksNeutrino();
    MuonLacksElectron();
    MuonHasMuon();
    MuonLacksTau();
    MuonLacksQuark();
    MuonLacksBoson();
  }

  lemma MuonLacksNeutrino()
    ensures !Contains("muon", "neutrino")
  {
    MissingChar("muon", "neutrino", 'e');
  }

  lemma MuonLacksElectron()
    ensures !Contains("muon", "electron")
  {
    MissingChar("muon", "electron", 'e');
  }

  lemma MuonHasMuon()
    ensures Contains("muon", "muon")
  {
    assert MatchAt("muon", "muon", 0);
  }

  lemma MuonLacksTau()
    ensures !Contains("muon", "tau")
  {
    MissingChar("muon", "tau", 't');
  }

  lemma MuonLacksQuark()
    ensures !Contains("muon", "quark")
  {
    MissingChar("muon", "quark", 'q');
  }

  lemma MuonLacksBoson()
    ensures !Contains("muon", "boson")
  {
    MissingChar("muon", "boson", 'b');
  }

  lemma CharmQuarkTags()
    ensures TagsOf("charm_quark") == Tags(false, false, false, false, true, false)
  {
    CharmQuarkLacksNeutrino();
    CharmQuarkLacksElectron();
    CharmQuarkLacksMuon();
    CharmQuarkLacksTau();
    CharmQuarkHasQuark();
    CharmQuarkLacksBoson();
  }

  lemma CharmQuarkLacksNeutrino()
    ensures !Contains("charm_quark", "neutrino")
  {
    MissingChar("charm_quark", "neutrino", 'n');
  }

  lemma CharmQuarkLacksElectron()
    ensures !Contains("charm_quark", "electron")
  {
    MissingChar("charm_quark", "electron", 'e');
  }

  lemma CharmQuarkLacksMuon()
    ensures !Contains("charm_quark", "muon")
  {
    MissingChar("charm_quark", "muon", 'o');
  }

  lemma CharmQuarkLacksTau()
    ensures !Contains("charm_quark", "tau")
  {
    MissingChar("charm_quark", "tau", 't');
  }

  lemma CharmQuarkHasQuark()
    ensures Contains("charm_quark", "quark")
  {
    assert MatchAt("charm_quark", "quark", 6);
  }

  lemma CharmQuarkLacksBoson()
    ensures !Contains("charm_quark", "boson")
  {
    MissingChar("charm_quark", "boson", 'b');
  }

  lemma TauTags()
    ensures TagsOf("tau") == Tags(false, false, false, true, false, false)
  {
    TauLacksNeutrino();
    TauLacksElectron();
    TauLacksMuon();
    TauHasTau();
    TauLacksQuark();
    TauLacksBoson();
  }

  lemma TauLacksNeutrino()
    ensures !Contains("tau", "neutrino")
  {
    MissingChar("tau", "neutrino", 'n');
  }

  lemma TauLacksElectron()
    ensures !Contains("tau", "electron")
  {
    MissingChar("tau", "electron", 'e');
  }

  lemma TauLacksMuon()
    ensures !Contains("tau", "muon")
  {
    MissingChar("tau", "muon", 'm');
  }

  lemma TauHasTau()
    ensures Contains("tau", "tau")
  {
    assert MatchAt("tau", "tau", 0);
  }

  lemma TauLacksQuark()
    ensures !Contains("tau", "quark")
  {
    MissingChar("tau", "quark", 'q');
  }

  lemma TauLacksBoson()
    ensures !Contains("tau", "boson")
  {
    MissingChar("tau", "boson", 'b');
  }

  lemma BottomQuarkTags()
    ensures TagsOf("bottom_quark") == Tags(false, false, false, false, true, false)
  {
    BottomQuarkLacksNeutrino();
    BottomQuarkLacksElectron();
    BottomQuarkLacksMuon();
    BottomQuarkLacksTau();
    BottomQuarkHasQuark();
    BottomQuarkLacksBoson();
  }

  lemma BottomQuarkLacksNeutrino()
    ensures !Contains("bottom_quark", "neutrino")
  {
    MissingChar("bottom_quark", "neutrino", 'n');
  }

  lemma BottomQuarkLacksElectron()
    ensures !Contains("bottom_quark", "electron")
  {
    MissingChar("bottom_quark", "electron", 'e');
  }

  lemma BottomQuarkLacksMuon()
    ensures !Contains("bottom_quark", "muon")
  {
    MissingChar("bottom_quark", "muon", 'n');
  }

  lemma BottomQuarkLacksTau()
    ensures !Contains("bottom_quark", "tau")
  {
    MissingCharAfter("bottom_quark", "tau", 't', 'a', 1, 4, 8);
  }

  lemma BottomQuarkHasQuark()
    ensures Contains("bottom_quark", "quark")
  {
    assert MatchAt("bottom_quark", "quark", 7);
  }

  lemma BottomQuarkLacksBoson()
    ensures !Contains("bottom_quark", "boson")
  {
    MissingChar("bottom_quark", "boson", 's');
  }

  lemma TopQuarkTags()
    ensures TagsOf("top_quark") == Tags(false, false, false, false, true, false)
  {
    TopQuarkLacksNeutrino();
    TopQuarkLacksElectron();
    TopQuarkLacksMuon();
    TopQuarkLacksTau();
    TopQuarkHasQuark();
    TopQuarkLacksBoson();
  }

  lemma TopQuarkLacksNeutrino()
    ensures !Contains("top_quark", "neutrino")
  {
    MissingChar("top_quark", "neutrino", 'n');
  }

  lemma TopQuarkLacksElectron()
    ensures !Contains("top_quark", "electron")
  {
    MissingChar("top_quark", "electron", 'e');
  }

  lemma TopQuarkLacksMuon()
    ensures !Contains("top_quark", "muon")
  {
    MissingChar("top_quark", "muon", 'm');
  }

  lemma TopQuarkLacksTau()
    ensures !Contains("top_quark", "tau")
  {
    MissingCharAfter("top_quark", "tau", 't', 'a', 1, 1, 8);
  }

  lemma TopQuarkHasQuark()
    ensures Contains("top_quark", "quark")
  {
    assert MatchAt("top_quark", "quark", 4);
  }

  lemma TopQuarkLacksBoson()
    ensures !Contains("top_quark", "boson")
  {
    MissingChar("top_quark", "boson", 'b');
  }

  lemma WBosonTags()
    ensures TagsOf("W_boson") == Tags(false, false, false, false, false, true)
  {
    WBosonLacksNeutrino();
    WBosonLacksElectron();
    WBosonLacksMuon();
    WBosonLacksTau();
    WBosonLacksQuark();
    WBosonHasBoson();
  }

  lemma WBosonLacksNeutrino()
    ensures !Contains("W_boson", "neutrino")
  {
    MissingChar("W_boson", "neutrino", 'e');
  }

  lemma WBosonLacksElectron()
    ensures !Contains("W_boson", "electron")
  {
    MissingChar("W_boson", "electron", 'e');
  }

  lemma WBosonLacksMuon()
    ensures !Contains("W_boson", "muon")
  {
    MissingChar("W_boson", "muon", 'm');
  }

  lemma WBosonLacksTau()
    ensures !Contains("W_boson", "tau")
  {
    MissingChar("W_boson", "tau", 't');
  }

  lemma WBosonLacksQuark()
    ensures !Contains("W_boson", "quark")
  {
    MissingChar("W_boson", "quark", 'q');
  }

  lemma WBosonHasBoson()
    ensures Contains("W_boson", "boson")
  {
    assert MatchAt("W_boson", "boson", 2);
  }

  lemma ZBosonTags()
    ensures TagsOf("Z_boson") == Tags(false, false, false, false, false, true)
  {
    ZBosonLacksNeutrino();
    ZBosonLacksElectron();
    ZBosonLacksMuon();
    ZBosonLacksTau();
    ZBosonLacksQuark();
    ZBosonHasBoson();
  }

  lemma ZBosonLacksNeutrino()
    ensures !Contains("Z_boson", "neutrino")
  {
    MissingChar("Z_boson", "neutrino", 'e');
  }

  lemma ZBosonLacksElectron()
    ensures !Contains("Z_boson", "electron")
  {
    MissingChar("Z_boson", "electron", 'e');
  }

  lemma ZBosonLacksMuon()
    ensures !Contains("Z_boson", "muon")
  {
    MissingChar("Z_boson", "muon", 'm');
  }

  lemma ZBosonLacksTau()
    ensures !Contains("Z_boson", "tau")
  {
    MissingChar("Z_boson", "tau", 't');
  }

  lemma ZBosonLacksQuark()
    ensures !Contains("Z_boson", "quark")
  {
    MissingChar("Z_boson", "quark", 'q');
  }

  lemma ZBosonHasBoson()
    ensures Contains("Z_boson", "boson")
  {
    assert MatchAt("Z_boson", "boson", 2);
  }

  lemma HiggsBosonTags()
    ensures TagsOf("higgs_boson") == Tags(false, false, false, false, false, true)
  {
    HiggsBosonLacksNeutrino();
    HiggsBosonLacksElectron();
    HiggsBosonLacksMuon();
    HiggsBosonLacksTau();
    HiggsBosonLacksQuark();
    HiggsBosonHasBoson();
  }

  lemma HiggsBosonLacksNeutrino()
    ensures !Contains("higgs_boson", "neutrino")
  {
    MissingChar("higgs_boson", "neutrino", 'e');
  }

  lemma HiggsBosonLacksElectron()
    ensures !Contains("higgs_boson", "electron")
  {
    MissingChar("higgs_boson", "electron", 'e');
  }

  lemma HiggsBosonLacksMuon()
    ensures !Contains("higgs_boson", "muon")
  {
    MissingChar("higgs_boson", "muon", 'm');
  }

  lemma HiggsBosonLacksTau()
    ensures !Contains("higgs_boson", "tau")
  {
    MissingChar("higgs_boson", "tau", 't');
  }

  lemma HiggsBosonLacksQuark()
    ensures !Contains("higgs_boson", "quark")
  {
    MissingChar("higgs_boson", "quark", 'q');
  }

  lemma HiggsBosonHasBoson()
    ensures Contains("higgs_boson", "boson")
  {
    assert MatchAt("higgs_boson", "boson", 6);
  }

}
