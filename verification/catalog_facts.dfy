/** Invariants of the `DATA_SERVICES` table: the units every layer uses, and how each
    uncertainty layer is named after the layer it belongs to. They are proved once for
    any table laid out in layer/uncertainty pairs, and then for the table itself. */
module CatalogFacts {
  import opened Strings
  import opened Catalog

  /** The units of `s` are percent or phi. */
  predicate KnownUnits(s: Service)
  {
    s.entry.units in {Percent, Phi}
  }

  /** `u` is the uncertainty layer of `s`: the key gains "_totlsu", the standard name
      gains "_uncertainty", and the units stay the same; `s` is not itself an
      uncertainty layer. */
  predicate UncertaintyPair(s: Service, u: Service)
  {
    && !EndsWith(s.key, UncertaintyKeySuffix)
    && u.key == s.key + UncertaintyKeySuffix
    && u.entry.name == s.entry.name + UncertaintyNameSuffix
    && u.entry.units == s.entry.units
  }

  /** A layer in known units followed by its uncertainty layer. */
  predicate LayerPair(s: Service, u: Service)
  {
    KnownUnits(s) && UncertaintyPair(s, u)
  }

  /** A table made of layer/uncertainty pairs, each layer directly followed by its own
      uncertainty layer. */
  predicate Paired(ss: seq<Service>)
  {
    && |ss| % 2 == 0
    && forall j :: 0 <= j < |ss| / 2 ==> LayerPair(ss[2 * j], ss[2 * j + 1])
  }

  lemma CarbonateLayer()
    ensures LayerPair(Carbonate, CarbonateTotlsu)
  {
  }

  lemma GrainsizeLayer()
    ensures LayerPair(Grainsize, GrainsizeTotlsu)
  {
  }

  lemma GravelLayer()
    ensures LayerPair(Gravel, GravelTotlsu)
  {
  }

  lemma MudLayer()
    ensures LayerPair(Mud, MudTotlsu)
  {
  }

  lemma OrganicCarbonLayer()
    ensures LayerPair(OrganicCarbon, OrganicCarbonTotlsu)
  {
  }

  lemma RockLayer()
    ensures LayerPair(Rock, RockTotlsu)
  {
  }

  lemma SandLayer()
    ensures LayerPair(Sand, SandTotlsu)
  {
  }

  /** The `j`-th layer of the table is directly followed by its uncertainty layer. */
  lemma LayerPairAt(j: int)
    requires 0 <= j < 7
    ensures 2 * j + 1 < |Services|
    ensures LayerPair(Services[2 * j], Services[2 * j + 1])
  {
    if j == 0 { CarbonateLayer(); }
    else if j == 1 { GrainsizeLayer(); }
    else if j == 2 { GravelLayer(); }
    else if j == 3 { MudLayer(); }
    else if j == 4 { OrganicCarbonLayer(); }
    else if j == 5 { RockLayer(); }
    else { SandLayer(); }
  }

  /** The table lists each of its seven layers directly followed by that layer's
      uncertainty layer. */
  lemma ServicesArePaired()
    ensures |Services| == 14
    ensures Paired(Services)
  {
    forall j | 0 <= j < |Services| / 2
      ensures LayerPair(Services[2 * j], Services[2 * j + 1])
    {
      LayerPairAt(j);
    }
  }

  /** In a paired table every entry, layer or uncertainty layer, has known units. */
  lemma PairedHasKnownUnits(ss: seq<Service>, i: int)
    requires Paired(ss)
    requires 0 <= i < |ss|
    ensures KnownUnits(ss[i])
  {
    var j := i / 2;
    assert LayerPair(ss[2 * j], ss[2 * j + 1]);
  }

  /** In a paired table, an entry whose key ends in "_totlsu" sits right after the layer
      it is the uncertainty layer of. */
  lemma PairedUncertaintyFollowsItsLayer(ss: seq<Service>, i: int)
    requires Paired(ss)
    requires 0 <= i < |ss| && EndsWith(ss[i].key, UncertaintyKeySuffix)
    ensures 0 < i && UncertaintyPair(ss[i - 1], ss[i])
  {
    var j := i / 2;
    assert LayerPair(ss[2 * j], ss[2 * j + 1]);
    assert ss[2 * j].key != ss[i].key;
    assert i == 2 * j + 1;
  }

  /** In a paired table with distinct keys, every key ending in "_totlsu" extends a key of
      the table, whose standard name followed by "_uncertainty" is its own. */
  lemma PairedUncertaintyHasBase(ss: seq<Service>, k: string)
    requires Paired(ss) && DistinctKeys(ss)
    requires k in ToMap(ss) && EndsWith(k, UncertaintyKeySuffix)
    ensures k[..|k| - |UncertaintyKeySuffix|] in ToMap(ss)
    ensures var base := ToMap(ss)[k[..|k| - |UncertaintyKeySuffix|]];
      && ToMap(ss)[k].name == base.name + UncertaintyNameSuffix
      && ToMap(ss)[k].units == base.units
  {
    var i :| 0 <= i < |ss| && ss[i].key == k;
    PairedUncertaintyFollowsItsLayer(ss, i);
    var s := ss[i - 1];
    assert k == s.key + UncertaintyKeySuffix;
    assert k[..|k| - |UncertaintyKeySuffix|] == s.key;
    ToMapAt(ss, i - 1);
    ToMapAt(ss, i);
  }

  /** Every variable of the catalog is measured in percent or in phi units. */
  lemma UnitsArePercentOrPhi(k: string)
    requires k in DataServices()
    ensures DataServices()[k].units in {Percent, Phi}
  {
    ServicesArePaired();
    ServicesHaveDistinctKeys();
    var i :| 0 <= i < |Services| && Services[i].key == k;
    ToMapAt(Services, i);
    PairedHasKnownUnits(Services, i);
  }

  /** Every "X_totlsu" key of the catalog has a layer "X" in the catalog, whose standard
      name followed by "_uncertainty" is its own, in the same units. */
  lemma UncertaintyKeysHaveBaseLayer(k: string)
    requires k in DataServices() && EndsWith(k, UncertaintyKeySuffix)
    ensures k[..|k| - |UncertaintyKeySuffix|] in DataServices()
    ensures var base := DataServices()[k[..|k| - |UncertaintyKeySuffix|]];
      && DataServices()[k].name == base.name + UncertaintyNameSuffix
      && DataServices()[k].units == base.units
  {
    ServicesArePaired();
    ServicesHaveDistinctKeys();
    PairedUncertaintyHasBase(Services, k);
  }
}
