# bmi_dbseabed: a Dafny model of the `DbSeabed` data client

`DbSeabed` fetches a sub-region of one of fourteen dbSEABED sediment layers of the
Gulf of Mexico (carbonate, grain size, gravel, mud, organic carbon, rock and sand
fractions, each with its uncertainty layer), writes it to a local GeoTIFF and records
metadata about it. This project models the part of that class that the repository
implements itself, as pure Dafny functions:

- the `DATA_SERVICES` catalog, kept in its source order, and the dictionary view of it
  (`catalog.dfy`), with its invariants (`catalog_facts.dfy`): every unit is "percent" or
  "phi", and every `X_totlsu` key is the uncertainty layer of a layer `X`;
- the `data_services` listing, four lines per variable in catalog order, together with a
  reader that recovers the catalog from the listing (`listing.dfy`);
- `get_data`: the three argument checks in their order, the decision between reusing the
  local output file and clipping the remote layer, the `tif_file` path resolution and the
  catalog-derived metadata, with the object's state before and after a call
  (`dbseabed.dfy`);
- the cases the repository's tests exercise (`dbseabed_tests.dfy`);
- the Python and POSIX string helpers the code relies on: `str.endswith`,
  `os.path.dirname` and `os.path.join` (`strings.dfy`, `posixpath.dfy`), written out as
  CPython's `posixpath` defines them; that module is not part of this model's sources.

Coordinates are exact `real`s. The file system and the process are parameters: whether
the output file exists (`os.path.isfile`) and the current working directory
(`os.getcwd`) are fields of `DbSeabed.Environment`. The raster work that `rioxarray`
performs is replaced by a `DbSeabed.Source` value saying what is read and what is
written: the local output file, or the variable's remote link clipped to the box and
written to the output path.

## Model

| member | source | states |
|---|---|---|
| Catalog.DataServices | src/bmi_dbseabed/dbseabed.py:10-81 | the catalog has exactly fourteen keys, the keys of the literal's items |
| Catalog.ToMap | src/bmi_dbseabed/dbseabed.py:10-81 | the dictionary a literal builds, later items overriding earlier ones, has exactly the keys of the literal's items |
| Catalog.ToMapAt | src/bmi_dbseabed/dbseabed.py:10-81 | in a dictionary literal with distinct keys, each key maps to the entry written beside it |
| Catalog.KeysCardinality | src/bmi_dbseabed/dbseabed.py:10-81 | a literal with distinct keys builds a dictionary with one key per item |
| Catalog.ServicesHaveDistinctKeys | src/bmi_dbseabed/dbseabed.py:10-81 | no variable key occurs twice in the catalog literal |
| Catalog.ServiceInCatalog | src/bmi_dbseabed/dbseabed.py:10-81 | every item of the literal is found in the dictionary under its key, with its own entry |
| Catalog.Lookup | src/bmi_dbseabed/dbseabed.py:194-196 | the `DATA_SERVICES[var_name]` subscripts (also at line 160): a key is found exactly when some catalog item carries it, and the entry found is that item's |
| CatalogFacts.ServicesArePaired | src/bmi_dbseabed/dbseabed.py:10-81 | the catalog lists seven layers, each directly followed by its uncertainty layer: key plus "_totlsu", name plus "_uncertainty", same units |
| CatalogFacts.PairedHasKnownUnits | src/bmi_dbseabed/dbseabed.py:10-81 | in a table laid out in such pairs every entry is in percent or phi |
| CatalogFacts.PairedUncertaintyHasBase | src/bmi_dbseabed/dbseabed.py:10-81 | in such a table every key ending in "_totlsu" extends a key of the table whose name plus "_uncertainty" is its name |
| CatalogFacts.UnitsArePercentOrPhi | src/bmi_dbseabed/dbseabed.py:14-79 | every variable of the catalog is measured in "percent" or "phi" |
| CatalogFacts.UncertaintyKeysHaveBaseLayer | src/bmi_dbseabed/dbseabed.py:16-79 | every "X_totlsu" key has a layer "X" in the catalog; its standard name is X's plus "_uncertainty", in X's units |
| Listing.ListingOfSnoc | src/bmi_dbseabed/dbseabed.py:99-107 | adding a variable at the end of the table adds its four lines at the end of the listing |
| Listing.ListingShape | src/bmi_dbseabed/dbseabed.py:98-107 | the listing has four lines per variable, and the block at position i describes the i-th variable |
| Listing.Render | src/bmi_dbseabed/dbseabed.py:98-107 | the loop that extends the line list entry by entry produces exactly the reference listing (blocks of all variables, in table order) |
| Listing.DataServicesLines | src/bmi_dbseabed/dbseabed.py:95-108 | the lines printed for the catalog are its reference listing, and reading them back gives the catalog itself, in order |
| Listing.ParseEntryRoundTrip | src/bmi_dbseabed/dbseabed.py:102-105 | the name, units, standard name and link lines of one variable determine that variable |
| Listing.ParseRoundTrip | src/bmi_dbseabed/dbseabed.py:98-107 | reading a listing back yields the table it lists: nothing lost, order kept |
| Strings.EndsWithIffConcat | src/bmi_dbseabed/dbseabed.py:148 | the suffix check holds exactly when the path is some string followed by the suffix |
| PosixPath.DirName | src/bmi_dbseabed/dbseabed.py:189 | the directory part is a prefix of the path, empty exactly when the path has no '/' |
| PosixPath.Join | src/bmi_dbseabed/dbseabed.py:190 | an absolute name replaces the directory; otherwise the result is the directory followed by the name, with exactly one '/' inserted between them unless the directory is empty or already ends with '/' |
| PosixPath.NoSepIsRelative | src/bmi_dbseabed/dbseabed.py:190 | a bare file name is never absolute, so joining keeps the directory |
| DbSeabed.Validate | src/bmi_dbseabed/dbseabed.py:136-151 | the checks pass exactly when the key is in the catalog, west <= east, south <= north and the output ends with ".tif"; otherwise the error is that of the first failing check, name, then box, then output |
| DbSeabed.ErrorMessage | src/bmi_dbseabed/dbseabed.py:138-151 | each of the three ValueErrors carries its own message text, and each text belongs to exactly one error |
| DbSeabed.FailureMessage | src/bmi_dbseabed/dbseabed.py:136-151 | a failing call raises the var_name message when the name is unknown, else the bounding-box message when the box is not ordered, else the .tif message |
| DbSeabed.UnknownNameRejectedFirst | src/bmi_dbseabed/dbseabed.py:137-138 | an unknown variable name is rejected whatever the box and the output are |
| DbSeabed.BoxJudgedBeforeOutput | src/bmi_dbseabed/dbseabed.py:141-151 | with a known name, a bad box is reported whatever the output is, and a good request stays good or fails only on the output when the output changes |
| DbSeabed.DegenerateBoxAccepted | src/bmi_dbseabed/dbseabed.py:141-145 | a box with west == east, or with a single point, passes |
| DbSeabed.TifSuffixAccepted | src/bmi_dbseabed/dbseabed.py:148-151 | every name ending in ".tif" passes, and ".TIF" does not: the check is case-sensitive |
| DbSeabed.ChooseSource | src/bmi_dbseabed/dbseabed.py:153-174 | nothing is written exactly when a local file is asked for and the output exists; then the output is read, otherwise the entry's link clipped to the box is written to the output |
| DbSeabed.TifFile | src/bmi_dbseabed/dbseabed.py:187-191 | a path with a '/' is kept as given, a bare name is joined to the working directory; the result always ends with the output path |
| DbSeabed.TifFileIdempotent | src/bmi_dbseabed/dbseabed.py:187-191 | resolving an already resolved path changes nothing |
| DbSeabed.TifFileOfBareNameIsAbsolute | src/bmi_dbseabed/dbseabed.py:190 | a bare file name resolved against an absolute working directory is absolute |
| DbSeabed.MetadataFor | src/bmi_dbseabed/dbseabed.py:192-196 | the metadata names the variable, and its standard name, link and units are those of that variable's catalog item |
| DbSeabed.NewClient | src/bmi_dbseabed/dbseabed.py:83-85 | a new client has neither a tif file nor metadata |
| DbSeabed.GetData | src/bmi_dbseabed/dbseabed.py:136-196 | a call fails exactly when the checks fail, then with their error and the client unchanged; otherwise it returns the chosen source and records the resolved tif file and the variable's metadata |
| DbSeabed.LocalFileIffRequestedAndPresent | src/bmi_dbseabed/dbseabed.py:153-174 | for valid arguments the local file is read exactly when it is asked for and exists; in every other case the variable's remote link is clipped to the box and written to the output |
| DbSeabed.MetadataFromCatalog | src/bmi_dbseabed/dbseabed.py:192-196 | after a successful call the metadata carries the variable name and its catalog name, units and link, whatever the client held before |
| DbSeabedTests.UnknownVariableRejected | tests/dbseabed_test.py:11-20 | "error" is rejected as a variable name |
| DbSeabedTests.SwappedEdgesRejected | tests/dbseabed_test.py:23-42 | west east of east, and south north of north, are rejected as a bounding box |
| DbSeabedTests.OutputWithoutExtensionRejected | tests/dbseabed_test.py:45-54 | the output "error" is rejected |
| DbSeabedTests.DownloadWritesOutput | tests/dbseabed_test.py:59-70 | a first carbonate request clips the remote carbonate layer and writes the output file |
| DbSeabedTests.SecondCallReusesLocalFile | tests/dbseabed_test.py:75-98 | a second request with local_file set, once the file exists, reads it and writes nothing |

## Left out

- Raster access: opening the remote GeoTIFF, `clip_box` and `to_raster` through
  rioxarray (src/bmi_dbseabed/dbseabed.py:155-174) are foreign library calls with network
  and file I/O; the model returns the `Source` that says what they would read and write,
  and assumes they succeed.
- The GeoTransform parsing, `grid_res`, `crs_wkt` and the node and grid bounding boxes
  (src/bmi_dbseabed/dbseabed.py:177-184, 197-205) are floating-point arithmetic over
  arrays the raster library produces.
- DbSeabed.MetadataFor: holds only the four catalog-derived metadata fields; the
  raster-derived fields above are not modelled.
- DbSeabed.GetData: returns the chosen `Source` instead of the dataset the source
  returns, since the dataset comes from the raster library.
- Floating point: coordinates are exact reals, so NaN comparisons (which make both
  `west > east` and `west <= east` false) and rounding are not modelled.
- Listing.DataServicesLines: stops at the list of lines; joining them with
  `os.linesep` and printing (src/bmi_dbseabed/dbseabed.py:108) are platform-dependent
  output, and the property itself returns None.
- Arguments of the wrong type (an `output` that is not a string, coordinates that do not
  compare) raise Python errors that the typed model cannot express.
- `os.path.isfile` is consulted only when `local_file` is true; the model takes its
  answer as an input either way, which makes no difference to the result.
- Only POSIX paths are modelled (`posixpath`); Windows path rules are not.
- src/bmi_dbseabed/cli.py is a click wrapper whose only logic is `float()` parsing of the
  comma-separated box before calling `get_data`; src/bmi_dbseabed/__init__.py only
  re-exports names, one of them from a `bmi` module that is not part of this model.
