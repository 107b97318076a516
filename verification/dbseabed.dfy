/** `DbSeabed.get_data`: the checks on its arguments, the choice between reusing the
    local GeoTIFF and fetching a clip of the remote one, and the `tif_file` and
    `metadata` the client records afterwards. Raster access itself is not modelled: the
    choice is returned as a `Source` saying what would be read and written. */
module DbSeabed {
  import opened Wrappers
  import opened Strings
  import opened Catalog
  import PosixPath

  /** The `west`, `south`, `east` and `north` arguments, as exact reals. */
  datatype BoundingBox = BoundingBox(west: real, south: real, east: real, north: real)

  /** The three ValueErrors `get_data` can raise, in the order it checks for them. */
  /** The three ValueErrors `get_data` can raise, in the order it checks for them. */
  datatype ValidationError = InvalidVarName | InvalidBoundingBox | InvalidOutput

  const VarNameMessage: string := "Please provide a valid var_name value."
  const BoundingBoxMessage: string :=
    "Please provide valid bounding box values for west, east, south and north."
  const OutputMessage: string := "Please provide a valid output file name with .tif extension."

  /** The message each ValueError carries. Different errors carry different messages, so a
      caller can tell from the message which check failed. */
  function ErrorMessage(e: ValidationError): (m: string)
    ensures m in {VarNameMessage, BoundingBoxMessage, OutputMessage}
    ensures m == VarNameMessage <==> e == InvalidVarName
    ensures m == BoundingBoxMessage <==> e == InvalidBoundingBox
    ensures m == OutputMessage <==> e == InvalidOutput
  {
    match e
    case InvalidVarName => VarNameMessage
    case InvalidBoundingBox => BoundingBoxMessage
    case InvalidOutput => OutputMessage
  }

  const TifSuffix: string := ".tif"

  /** The box is ordered: its west edge is not east of its east edge, and its south edge
      is not north of its north edge. Equal edges are allowed. */
  predicate OrderedBox(box: BoundingBox)
  {
    box.west <= box.east && box.south <= box.north
  }

  /** Everything the checks ask of the arguments. */
  predicate ValidRequest(varName: string, box: BoundingBox, output: string)
  {
    varName in DataServices() && OrderedBox(box) && EndsWith(output, TifSuffix)
  }

  /** The argument checks of `get_data`, in source order: the variable name, then the
      bounding box, then the output file name; the first that fails is reported. */
  function Validate(varName: string, box: BoundingBox, output: string): (r: Outcome<ValidationError>)
    ensures r.Pass? <==> ValidRequest(varName, box, output)
    ensures r == Fail(InvalidVarName) <==> varName !in DataServices()
    ensures r == Fail(InvalidBoundingBox) <==>
      varName in DataServices() && (box.west > box.east || box.south > box.north)
    ensures r == Fail(InvalidOutput) <==>
      varName in DataServices() && OrderedBox(box) && !EndsWith(output, TifSuffix)
  {
    if varName !in DataServices() then Fail(InvalidVarName)
    else if box.west > box.east || box.south > box.north then Fail(InvalidBoundingBox)
    else if !EndsWith(output, TifSuffix) then Fail(InvalidOutput)
    else Pass
  }

  /** An unknown variable name is rejected whatever the box and the output are. */
  lemma UnknownNameRejectedFirst(varName: string, box: BoundingBox, output: string,
                                 box': BoundingBox, output': string)
    requires varName !in DataServices()
    ensures Validate(varName, box, output) == Validate(varName, box', output') == Fail(InvalidVarName)
  {
  }

  /** For a known variable, the bounding box is judged before the output, and whatever the
      output is. */
  lemma BoxJudgedBeforeOutput(varName: string, box: BoundingBox, output: string, output': string)
    requires varName in DataServices()
    ensures Validate(varName, box, output).Pass? ==> Validate(varName, box, output').Pass? || Validate(varName, box, output') == Fail(InvalidOutput)
    ensures !OrderedBox(box) ==> Validate(varName, box, output) == Validate(varName, box, output') == Fail(InvalidBoundingBox)
  {
  }

  /** A degenerate box, with no width or no height, passes the box check. */
  lemma DegenerateBoxAccepted(varName: string, x: real, y: real, south: real, north: real, output: string)
    requires varName in DataServices() && south <= north && EndsWith(output, TifSuffix)
    ensures Validate(varName, BoundingBox(x, south, x, north), output) == Pass
    ensures Validate(varName, BoundingBox(x, y, x, y), output) == Pass
  {
  }

  /** Any name ending in ".tif" passes the output check, and the check is case-sensitive. */
  lemma TifSuffixAccepted(varName: string, box: BoundingBox, stem: string)
    requires varName in DataServices() && OrderedBox(box)
    ensures Validate(varName, box, stem + TifSuffix) == Pass
    ensures Validate(varName, box, stem + ".TIF") == Fail(InvalidOutput)
  {
    EndsWithAppend(stem, TifSuffix);
    assert (stem + ".TIF")[|stem + ".TIF"| - 4..] == ".TIF";
  }

  /** Where the dataset comes from: the output file already on disk, read as it is, or a
      clip of the variable's remote GeoTIFF, written to the output file. */
  datatype Source =
    | LocalFile(path: string)
    | RemoteClip(link: string, clip: BoundingBox, destination: string)
  {
    /** Whether the call downloads data and writes the output file. */
    predicate WritesOutput()
    {
      RemoteClip?
    }
  }

  /** The local-or-remote decision of `get_data`, for a request that passed the checks.
      `outputExists` is what `os.path.isfile(output)` answers. */
  function ChooseSource(entry: Entry, box: BoundingBox, output: string,
                        localFile: bool, outputExists: bool): (s: Source)
    ensures !s.WritesOutput() <==> localFile && outputExists
    ensures s.LocalFile? ==> s.path == output
    ensures s.RemoteClip? ==> s.link == entry.link && s.clip == box && s.destination == output
  {
    if localFile && outputExists then LocalFile(output) else RemoteClip(entry.link, box, output)
  }

  /** The `tif_file` recorded after a call: the output path as given when it has a
      directory part, otherwise joined to the current working directory `cwd`. */
  function TifFile(cwd: string, output: string): (t: string)
    ensures PosixPath.Sep in output ==> t == output
    ensures PosixPath.Sep !in output ==> t == PosixPath.Join(cwd, output)
    ensures EndsWith(t, output)
  {
    if PosixPath.DirName(output) != [] then output else PosixPath.Join(cwd, output)
  }

  /** Resolving a resolved path changes nothing. */
  lemma TifFileIdempotent(cwd: string, output: string)
    ensures TifFile(cwd, TifFile(cwd, output)) == TifFile(cwd, output)
  {
    var t := TifFile(cwd, output);
    if PosixPath.Sep !in output {
      PosixPath.NoSepIsRelative(output);
      if cwd != [] {
        assert t[|t| - |output| - 1] == PosixPath.Sep;
      }
    }
  }

  /** A bare file name resolved against an absolute working directory is absolute. */
  lemma TifFileOfBareNameIsAbsolute(cwd: string, output: string)
    requires StartsWith(cwd, [PosixPath.Sep]) && PosixPath.Sep !in output
    ensures StartsWith(TifFile(cwd, output), [PosixPath.Sep])
  {
    PosixPath.NoSepIsRelative(output);
    var t := TifFile(cwd, output);
    assert t[..1] == cwd[..1];
  }

  /** The catalog-derived part of the `metadata` dictionary. */
  datatype Metadata = Metadata(
    variableName: string,
    bmiStandardName: string,
    variableUnits: string,
    serviceUrl: string)

  /** The metadata recorded for a known variable. */
  function MetadataFor(varName: string): (m: Metadata)
    requires varName in DataServices()
    ensures m.variableName == varName
    ensures Service(varName, Entry(m.bmiStandardName, m.serviceUrl, m.variableUnits)) in Services
  {
    var e := DataServices()[varName];
    var r := Lookup(varName);
    assert r == Some(e);
    Metadata(varName, e.name, e.units, e.link)
  }

  /** The arguments of `get_data`. */
  datatype Request = Request(
    varName: string,
    box: BoundingBox,
    output: string,
    localFile: bool)

  /** What the call learns from the machine it runs on. */
  datatype Environment = Environment(outputExists: bool, cwd: string)

  /** The state of a `DbSeabed` object: `tif_file` and `metadata`, both None until a call
      succeeds. */
  datatype Client = Client(tifFile: Option<string>, metadata: Option<Metadata>)

  /** A freshly constructed `DbSeabed`. */
  function NewClient(): (c: Client)
    ensures c.tifFile.None? && c.metadata.None?
  {
    Client(None, None)
  }

  /** `get_data`: on bad arguments the error, with the client unchanged; otherwise the
      source of the dataset, with the client recording where the file is and which
      variable it holds. */
  function GetData(c: Client, req: Request, env: Environment): (r: (Client, Result<Source, ValidationError>))
    ensures r.1.Failure? <==> !ValidRequest(req.varName, req.box, req.output)
    ensures r.1.Failure? ==> r.0 == c && Validate(req.varName, req.box, req.output) == Fail(r.1.error)
    ensures r.1.Success? ==>
      && req.varName in DataServices()
      && r.1.value == ChooseSource(DataServices()[req.varName], req.box, req.output,
                                   req.localFile, env.outputExists)
      && r.0.tifFile == Some(TifFile(env.cwd, req.output))
      && r.0.metadata == Some(MetadataFor(req.varName))
  {
    match Validate(req.varName, req.box, req.output)
    case Fail(e) => (c, Failure(e))
    case Pass =>
      var entry := DataServices()[req.varName];
      var source := ChooseSource(entry, req.box, req.output, req.localFile, env.outputExists);
      (Client(Some(TifFile(env.cwd, req.output)), Some(MetadataFor(req.varName))), Success(source))
  }

  /** The local file is read, with nothing downloaded or written, exactly when the caller
      asks for it and the output file exists; in every other successful call the
      variable's remote link is clipped to the box and written to the output. */
  lemma LocalFileIffRequestedAndPresent(c: Client, req: Request, env: Environment)
    requires ValidRequest(req.varName, req.box, req.output)
    ensures GetData(c, req, env).1.Success?
    ensures GetData(c, req, env).1.value.LocalFile? <==> req.localFile && env.outputExists
    ensures !(req.localFile && env.outputExists) ==>
      GetData(c, req, env).1.value
        == RemoteClip(DataServices()[req.varName].link, req.box, req.output)
  {
  }

  /** After a successful call the metadata names the variable and carries the standard
      name, units and link of its catalog entry, and the result does not depend on what
      the client held before. */
  lemma MetadataFromCatalog(c: Client, c': Client, req: Request, env: Environment)
    requires ValidRequest(req.varName, req.box, req.output)
    ensures var m := GetData(c, req, env).0.metadata;
      && m.Some?
      && m.value.variableName == req.varName
      && m.value.bmiStandardName == DataServices()[req.varName].name
      && m.value.variableUnits == DataServices()[req.varName].units
      && m.value.serviceUrl == DataServices()[req.varName].link
    ensures GetData(c, req, env).0 == GetData(c', req, env).0
  {
  }

  /** A failing call raises the message of the first failing check: the variable name,
      then the bounding box, then the output file name. */
  lemma FailureMessage(c: Client, req: Request, env: Environment)
    ensures var r := GetData(c, req, env);
      r.1.Failure? ==>
        ErrorMessage(r.1.error)
          == if req.varName !in DataServices() then VarNameMessage
             else if !OrderedBox(req.box) then BoundingBoxMessage
             else OutputMessage
  {
  }
}
