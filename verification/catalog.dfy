/** The static `DATA_SERVICES` table of `DbSeabed`: fourteen dbSEABED layers for the
    Gulf of Mexico, each mapping a variable key to its CSDMS standard name, the link of
    the remote GeoTIFF and its units. Python dictionaries keep insertion order, so the
    table is an ordered sequence of services, and the dictionary is derived from it. */
module Catalog {
  import opened Wrappers
  import opened Strings

  /** One catalog entry: the `name`, `link` and `units` fields. */
  datatype Entry = Entry(name: string, link: string, units: string)

  /** A key together with its entry, as one item of the dictionary literal. */
  datatype Service = Service(key: string, entry: Entry)

  const Percent: string := "percent"
  const Phi: string := "phi"
  const UncertaintyKeySuffix: string := "_totlsu"
  const UncertaintyNameSuffix: string := "_uncertainty"

  /** The items of the dictionary literal, one constant per variable key. */
  const Carbonate: Service := Service("carbonate", Entry(
    "surficial_seafloor_carbonate__fraction",
    "https://csdms.colorado.edu/pub/data/dbSEABED/gomex_crb_idw3d.tif",
    "percent"))
  const CarbonateTotlsu: Service := Service("carbonate_totlsu", Entry(
    "surficial_seafloor_carbonate__fraction_uncertainty",
    "https://csdms.colorado.edu/pub/data/dbSEABED/gomex_crb_idw3d_TotlSU.tif",
    "percent"))
  const Grainsize: Service := Service("grainsize", Entry(
    "surficial_seafloor_sediment__grain-size",
    "https://csdms.colorado.edu/pub/data/dbSEABED/gomex_grz_idw3d.tif",
    "phi"))
  const GrainsizeTotlsu: Service := Service("grainsize_totlsu", Entry(
    "surficial_seafloor_sediment__grain-size_uncertainty",
    "https://csdms.colorado.edu/pub/data/dbSEABED/gomex_grz_idw3d_TotlSU.tif",
    "phi"))
  const Gravel: Service := Service("gravel", Entry(
    "surficial_seafloor_sediment_gravel__fraction",
    "https://csdms.colorado.edu/pub/data/dbSEABED/gomex_codaGVL_idw3d.tif",
    "percent"))
  const GravelTotlsu: Service := Service("gravel_totlsu", Entry(
    "surficial_seafloor_sediment_gravel__fraction_uncertainty",
    "https://csdms.colorado.edu/pub/data/dbSEABED/gomex_codaGVL_TotlSU.tif",
    "percent"))
  const Mud: Service := Service("mud", Entry(
    "surficial_seafloor_sediment_mud__fraction",
    "https://csdms.colorado.edu/pub/data/dbSEABED/gomex_codaMUD_idw3d.tif",
    "percent"))
  const MudTotlsu: Service := Service("mud_totlsu", Entry(
    "surficial_seafloor_sediment_mud__fraction_uncertainty",
    "https://csdms.colorado.edu/pub/data/dbSEABED/gomex_codaMUD_TotlSU.tif",
    "percent"))
  const OrganicCarbon: Service := Service("organic_carbon", Entry(
    "surficial_seafloor_sediment_organic-carbon__fraction",
    "https://csdms.colorado.edu/pub/data/dbSEABED/gomex_ocbn_idw3d.tif",
    "percent"))
  const OrganicCarbonTotlsu: Service := Service("organic_carbon_totlsu", Entry(
    "surficial_seafloor_sediment_organic-carbon__fraction_uncertainty",
    "https://csdms.colorado.edu/pub/data/dbSEABED/gomex_ocbn_idw3d_TotlSU.tif",
    "percent"))
  const Rock: Service := Service("rock", Entry(
    "surficial_seafloor_rock~exposed__fraction",
    "https://csdms.colorado.edu/pub/data/dbSEABED/gomex_rck_idw3d.tif",
    "percent"))
  const RockTotlsu: Service := Service("rock_totlsu", Entry(
    "surficial_seafloor_rock~exposed__fraction_uncertainty",
    "https://csdms.colorado.edu/pub/data/dbSEABED/gomex_rck_idw3d_TotlSU.tif",
    "percent"))
  const Sand: Service := Service("sand", Entry(
    "surficial_seafloor_sediment_sand__fraction",
    "https://csdms.colorado.edu/pub/data/dbSEABED/gomex_codaSND_idw3d.tif",
    "percent"))
  const SandTotlsu: Service := Service("sand_totlsu", Entry(
    "surficial_seafloor_sediment_sand__fraction_uncertainty",
    "https://csdms.colorado.edu/pub/data/dbSEABED/gomex_codaSND_TotlSU.tif",
    "percent"))

  /** The dictionary literal, in source order. */
  const Services: seq<Service> := [
    Carbonate, CarbonateTotlsu, Grainsize, GrainsizeTotlsu,
    Gravel, GravelTotlsu, Mud, MudTotlsu,
    OrganicCarbon, OrganicCarbonTotlsu, Rock, RockTotlsu,
    Sand, SandTotlsu
  ]

  /** The dictionary a Python literal builds from a list of items: a later item with the
      same key overrides an earlier one. */
  function ToMap(ss: seq<Service>): (m: map<string, Entry>)
    ensures m.Keys == set i | 0 <= i < |ss| :: ss[i].key
  {
    if ss == [] then map[]
    else ToMap(ss[..|ss| - 1])[ss[|ss| - 1].key := ss[|ss| - 1].entry]
  }

  /** No key occurs twice. */
  predicate DistinctKeys(ss: seq<Service>)
  {
    forall i, j :: 0 <= i < j < |ss| ==> ss[i].key != ss[j].key
  }

  /** With distinct keys, the dictionary maps every item's key to that item's entry. */
  lemma {:induction false} ToMapAt(ss: seq<Service>, i: int)
    requires DistinctKeys(ss)
    requires 0 <= i < |ss|
    ensures ss[i].key in ToMap(ss) && ToMap(ss)[ss[i].key] == ss[i].entry
  {
    if i < |ss| - 1 {
      ToMapAt(ss[..|ss| - 1], i);
    }
  }

  /** `DbSeabed.DATA_SERVICES`. */
  function DataServices(): (m: map<string, Entry>)
    ensures |m| == 14
    ensures m.Keys == set i | 0 <= i < |Services| :: Services[i].key
  {
    ServicesHaveDistinctKeys();
    var m := ToMap(Services);
    KeysCardinality(Services);
    m
  }

  /** Looking a variable up in the catalog. */
  function Lookup(key: string): (r: Option<Entry>)
    ensures r.Some? <==> exists i :: 0 <= i < |Services| && Services[i].key == key
    ensures r.Some? ==> exists i :: 0 <= i < |Services| && Services[i] == Service(key, r.value)
  {
    var m := DataServices();
    if key in m then
      var i :| 0 <= i < |Services| && Services[i].key == key;
      ServicesHaveDistinctKeys();
      ToMapAt(Services, i);
      Some(m[key])
    else None
  }

  /** The distinct keys of a list number exactly as many as its items. */
  lemma {:induction false} KeysCardinality(ss: seq<Service>)
    requires DistinctKeys(ss)
    ensures |ToMap(ss)| == |ss|
  {
    if ss != [] {
      var init := ss[..|ss| - 1];
      KeysCardinality(init);
      assert ss[|ss| - 1].key !in ToMap(init);
    }
  }

  lemma ServicesHaveDistinctKeys()
    ensures DistinctKeys(Services)
  {
  }

  /** Every item of the table is found in the dictionary under its key. */
  lemma ServiceInCatalog(i: int)
    requires 0 <= i < |Services|
    ensures Services[i].key in DataServices()
    ensures DataServices()[Services[i].key] == Services[i].entry
  {
    ServicesHaveDistinctKeys();
    ToMapAt(Services, i);
  }
}
