/** The cases exercised by the repository's tests of `get_data`, stated as lemmas about
    the model. The downloads are replaced by the `Source` the model chooses. */
module DbSeabedTests {
  import opened Wrappers
  import opened Strings
  import opened Catalog
  import opened DbSeabed
  import PosixPath

  /** The box used throughout the tests, around Puerto Rico. */
  const TestBox: BoundingBox := BoundingBox(-66.8, 18.0, -66.2, 18.4)

  /** "carbonate" is the first variable of the catalog. */
  lemma CarbonateKnown()
    ensures "carbonate" in DataServices() && DataServices()["carbonate"] == Carbonate.entry
  {
    ServiceInCatalog(0);
  }

  /** `test_var_name`: "error" is not a variable. */
  lemma UnknownVariableRejected()
    ensures Validate("error", TestBox, "test.tif") == Fail(InvalidVarName)
  {
  }

  /** `test_bounding_box`: west east of east, and south north of north, are rejected. */
  lemma SwappedEdgesRejected()
    ensures Validate("carbonate", BoundingBox(-66.2, 18.0, -66.8, 18.4), "test.tif")
      == Fail(InvalidBoundingBox)
    ensures Validate("carbonate", BoundingBox(-66.8, 18.4, -66.2, 18.0), "test.tif")
      == Fail(InvalidBoundingBox)
  {
    CarbonateKnown();
  }

  /** `test_output`: an output name without the ".tif" extension is rejected. */
  lemma OutputWithoutExtensionRejected()
    ensures Validate("carbonate", TestBox, "error") == Fail(InvalidOutput)
  {
    CarbonateKnown();
    assert "error"[1..] != TifSuffix;
  }

  /** `test_data_download`: a fresh client fetches the carbonate clip from the server and
      writes it to the requested file, and records that file and the carbonate metadata. */
  lemma DownloadWritesOutput(tmpdir: string, cwd: string, onDisk: bool)
    ensures var output := PosixPath.Join(tmpdir, "test.tif");
      var r := GetData(NewClient(), Request("carbonate", TestBox, output, false), Environment(onDisk, cwd));
      && r.1 == Success(RemoteClip(Carbonate.entry.link, TestBox, output))
      && r.1.value.WritesOutput()
      && r.0.metadata == Some(Metadata("carbonate", Carbonate.entry.name, "percent", Carbonate.entry.link))
  {
    var output := PosixPath.Join(tmpdir, "test.tif");
    EndsWithTrans(output, "test.tif", TifSuffix);
    CarbonateKnown();
  }

  /** `test_load_localfile`: once the file is on disk, asking for the local file reads it
      and writes nothing, so the file is left as the first call wrote it. */
  lemma SecondCallReusesLocalFile(tmpdir: string, cwd: string)
    ensures var output := PosixPath.Join(tmpdir, "test.tif");
      var first := GetData(NewClient(), Request("carbonate", TestBox, output, false), Environment(false, cwd));
      var second := GetData(NewClient(), Request("carbonate", TestBox, output, true), Environment(true, cwd));
      && first.1.Success? && first.1.value.WritesOutput()
      && second.1 == Success(LocalFile(output))
      && !second.1.value.WritesOutput()
  {
    var output := PosixPath.Join(tmpdir, "test.tif");
    EndsWithTrans(output, "test.tif", TifSuffix);
    CarbonateKnown();
  }
}
