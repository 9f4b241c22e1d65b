# HDF-EOS utility layer: model and proofs

A Dafny model of the HDF-EOS utility layer (`EHapi.c`), of the C/Fortran string
helpers in `cfortHdf.h` and of the pixel macros in `PGS_DEM.h`, with proofs of
what they keep, refine and undo. `dafny verify dfyconfig.toml` checks all of it.

## What is modelled

**Structural metadata.** An HDF-EOS file describes its swaths, grids and points in
one ODL text of GROUP and OBJECT entries, kept in attributes `StructMetadata.0`,
`.1`, ... of 32000 bytes each. The layer edits that text by substring search.
`MetaTree` has the tree the text stands for and its print; `MetaEdit` has the edit
as the C code makes it (searches, counts, format strings, truncation); `MetaTheorem`
shows that the edit is the append to the tree, for every request and over every run,
and gives the exact condition where it is not. `MetaFormat` has the printed lines of
every element as they stand in the file, `MetaInserted` where each insertion puts them.
`MetaStore` is the object with the
sections: it reads them into one buffer, splices in place and writes back.
`MetaRequest` has the requests of the swath, grid and point interfaces and
`MetaCallers` the buffers in which those build their strings; `MetaApi` carries
whole runs of such calls out on the store (`MetaCString`: what they write are C strings),
and `MetaGather` has the fields gathered
for a merge. `MetaLookup` and `MetaWhole` bracket a group, and `MetaRead` turns a
lookup on the text into a lookup on the printed lines. From there `MetaFind`,
`MetaDims`, `MetaFields`, `MetaMaps`, `MetaLinks` and `MetaMerged` have the lookups
of the swath, grid and point interfaces, `MetaRows` and `MetaInquire` the inquiries
that read a whole group; `MetaForms` has the lookups on any text, with keys that are
missing and the forms of older files. `MetaMissing` and `MetaElsewhere` have the requests whose
parent is not where they name it. `CText`, `OdlLines` and `OdlCount` hold the theory
of C searches over lines that this needs.

**Delimited lists.** `ListText` has split and join as values; `ListOps`,
`ListReverse` and `ListNames` have the C routines on their buffers and pointer
arrays, a pointer being an offset.

**Fill values.** `FillField` writes a field slab by slab from one bounded buffer.

**Open files.** `OpenFiles` is the table of open files as a state machine whose
operations carry the answers of the HDF library; `FileTable` is the object with
the four parallel tables.

**Numerics.** `Bisect` and `Angles` work over the reals.

**C and Fortran strings.** `StringVectors` has the two layouts as values;
`FortranStrings` has the conversions on buffers, in place or not.

**Digital elevation model.** `Dem` has the pixel conversions over the reals.

## What the proofs found

- EHinsertmeta is the tree append exactly when the new element is shorter than a
  utility string of 32000 bytes (`MetaTheorem.Refinement`).
- A structure is searched without a closing quote, so a name that is a prefix of
  an earlier one is never reached (`MetaTheorem.LocateExact`,
  `MetaTheorem.PrefixNameMisleads`).
- The search for a level is not bounded by the point it belongs to: EHinsertmeta adds
  a field for a level its point does not have in the first later point that has one
  (`MetaElsewhere.FieldGoesOn`). No interface call reaches this: PTdeflevel is the only
  one that adds fields, and it has just inserted the level
  (`MetaElsewhere.LevelJustInserted`). But the level is searched without a closing quote
  too: the fields PTdeflevel is given land in the new level exactly when no earlier level
  of the point has a name that starts with its name, so those of a level "A" defined
  after "AB" end up in "AB" (`MetaElsewhere.LevelDefined`,
  `MetaElsewhere.PrefixLevelMisleads`).
- The interfaces build some strings in buffers that names of the documented length
  overflow. The two names of a map are cut at 79 characters: with two dimensions of 40
  letters the second arrives without its last two, and SWmapinfo finds no such map
  (`MetaMaps.DefineMapThenLookUp`, `MetaMaps.LongNamesNoMap`). A field's name and
  dimensions are cut at 511 characters, or at 255 where the metadata of a field alone
  is written: a field of 64 letters over seven dimensions of 63 comes back with one
  letter less (`MetaFields.DefineFieldThenLookUp`, `MetaFields.LetterLost`). GDcreate
  cuts the lines of a new grid up to its two sizes at 127, which a name of 64 characters
  and two sizes of ten digits reach (`MetaCallers.HeaderCut`); the text is the print of
  the tree after every call of a run exactly when no grid is cut
  (`MetaCallers.AsksFromNew`).
- A merged field list whose printed form has 32000 characters or more cannot be
  inserted (`MetaTheorem.MergedTooLong`). The interfaces refuse a field only when the
  bare names reach that size, so a caller can ask for such a merge: 490 different names
  of the longest documented length pass every test (`MetaGather.LongMergeAsked`).
- EHgetmetavalue looks for its key in the values too, names included. A dimension
  named "Size=7", which the naming rules allow, has the size 7 whatever it was
  defined with (`MetaDims.SizeInName`); a field "DataType=a" has no type
  (`MetaFields.TypeInName`), a map of "Offset=7" not its offset
  (`MetaMaps.OffsetInName`), a link of "LinkField=a" not its field
  (`MetaLinks.FieldInParent`), a merge of "FieldList=a" no list
  (`MetaMerged.ListInName`), and a map of "DataDimension=a" is listed without a data
  dimension (`MetaInquire.KeyInDimension`). For each lookup and inquiry the exact names
  are given; where a name holds the key, what is returned can still be right, as the
  list of maps is for "DataDimension=xb" and "b" (`MetaInquire.KeyBeforeName`).
- The lookups copy values into buffers of their own. SWfinfo and GDfieldinfo have room
  for a printed list of 511 characters, eight dimensions, and 63 characters of each, so
  a dimension of 64 characters, which the naming rules allow, overruns every lookup of a
  field that has it (`MetaFields.LongDimension`); SWSDfldsrch and GDSDfldsrch have room
  for a list of 2047 characters.
- GDSDfldsrch moves one pointer and reads from another, so it takes the field list of
  the first merged field of the grid for every merged field: the right one comes back
  exactly for fields with the members of the first (`MetaMerged.GridListReads`,
  `MetaMerged.GridTakesFirst`). SWSDfldsrch reads the right one
  (`MetaMerged.SwathListReads`).
- SWinqidxmaps, asked for sizes and not for names, never moves its pointer: it returns
  if and only if there is no index map (`MetaInquire.IndexSizesInquired`).
- EHmetagroup does not bracket the Level group of a point that has levels
  (`MetaLookup.MetaGroupBrackets`): its search strings are shorter than those of
  EHinsertmeta.
- EHrevflds is its own inverse also for lists whose ends are double commas, and
  for no other list of several entries with a comma at an end
  (`ListReverse.ReversedTwice`).
- EHbisect divides by the mid-point. For a function that keeps one strict sign up to
  its crossing and not from there on, it returns for a criterion in (0, 0.5] if and
  only if the crossing is not at 0 (`Bisect.StopsIff`); the order of the limits and
  whether 0 lies between them do not matter. It never returns for a criterion of 0 or
  less (`Bisect.CritPositive`), and it returns for any positive one when the crossing is not at 0
  (`Bisect.StopsOffZero`), or when the function, whatever its crossings, keeps one
  strict sign near 0 (`Bisect.StopsIfSignNearZero`). Above 1.5 it returns unless both
  limits are 0 (`Bisect.StopsAbove`). Between 0.5 and 1.5 a crossing at 0 is decided by
  the limits alone (`Bisect.AtZeroLikeIdentity`): -1 and 1 end, -1 and 2 do not
  (`Bisect.NeverAtZero`, `Bisect.NeverAtThirds`).
- An open for reading or writing in which Hopen succeeds and SDstart then fails leaves
  the file open in the HDF library without a handle to close it by; no other failing
  open does (`OpenFiles.FailedOpen`).
- The message of EHchkfid gives a strict upper bound on file ids and EHclose tests
  it, but the test in EHchkfid admits one id more (`OpenFiles.RangesAgree`). The
  model follows the code.

## Model

| member | source | states |
|---|---|---|
| `OdlCount.CountTerminators` | TOOLKIT/hdfeos/src/EHapi.c:1537-1563 | EHcntOBJECT and EHcntGROUP are one loop; it stops on every text and returns exactly the number of terminators strictly between the two pointers, or -1 when the end pointer is null or not behind the begin pointer |
| `OdlCount.CountLines` | TOOLKIT/hdfeos/src/EHapi.c:1537-1563 | counting a terminator over printed lines adds up the lines that have it as key and the values that hold it |
| `OdlCount.CountIsKeysIff` | TOOLKIT/hdfeos/src/EHapi.c:1597-1623 | the count is the number of terminator lines if and only if no value holds the word |
| `MetaText.PositionAt` | TOOLKIT/hdfeos/src/EHapi.c:1990-2408 | the metadata switch: for every code, where the segment goes and the number it carries, by the searches and the counting loop |
| `MetaText.Position` | TOOLKIT/hdfeos/src/EHapi.c:1891-1948 | root search, then the search for the structure in both its forms, then the switch |
| `MetaLocate.LocateRoot` | TOOLKIT/hdfeos/src/EHapi.c:1891-1908 | the root search lands on the opening line of the kind's section, whatever the file holds |
| `MetaLocate.LocateNamed` | TOOLKIT/hdfeos/src/EHapi.c:1913-1947 | the search for a structure stops at the first structure of its kind whose name starts with the requested name |
| `MetaTheorem.LocateExact` | TOOLKIT/hdfeos/src/EHapi.c:1923-1947 | a structure is found by its own name if and only if no earlier structure of its kind has a name that starts with it |
| `MetaTheorem.PrefixNameMisleads` | TOOLKIT/hdfeos/src/EHapi.c:1923-1935 | a concrete file in which swath "A" cannot be reached because the search without a closing quote stops at swath "AB" |
| `MetaMissing.FoundIff` | TOOLKIT/hdfeos/src/EHapi.c:1913-1947 | the search finds a structure if and only if the tree has one whose name starts with the requested one; the second form of the search finds nothing more |
| `MetaMissing.NoStructNoInsert` | TOOLKIT/hdfeos/src/EHapi.c:1913-1948 | a request for a structure that is not there has no place in the text |
| `MetaRefine.GroupCount` | TOOLKIT/hdfeos/src/EHapi.c:1996-2010 | the counting loop between the brackets of a group returns the number of its entries, so the next object is numbered one higher and the next level carries the count |
| `MetaRefine.RefineEntry` | TOOLKIT/hdfeos/src/EHapi.c:1993-2370 | inserting a dimension, map, index map, geolocation or data field, merged field list, level or level link gives exactly the print of the tree with that entry appended to its group |
| `MetaRefineMore.RefineParams` | TOOLKIT/hdfeos/src/EHapi.c:2373-2380 | inserting parameter lines gives the print of the tree with them appended to the structure's parameters |
| `MetaRefineMore.RefineCreate` | TOOLKIT/hdfeos/src/EHapi.c:2383-2408 | inserting the text of a new structure gives the print of the tree with the empty structure appended to its section |
| `MetaRefineMore.CreateTextIs` | TOOLKIT/hdfeos/src/SWapi.c:414-434 | the text SWcreate, GDcreate and PTcreate build is the print of an empty structure |
| `MetaPointField.FieldCount` | TOOLKIT/hdfeos/src/EHapi.c:2300-2314 | from the level's name to its end the loop counts the fields of that level only |
| `MetaPointField.RefineField` | TOOLKIT/hdfeos/src/EHapi.c:2290-2326 | inserting a point field gives the print of the tree with the field appended to the first level whose name starts with the requested one |
| `MetaTheorem.Refinement` | TOOLKIT/hdfeos/src/EHapi.c:1794-2478 | EHinsertmeta refines the append to the tree: for every well-formed file and request with a place, the new text is the print of the new tree if and only if the new element is shorter than a utility string; well-formedness is kept |
| `MetaFormat.TypeEnds` | TOOLKIT/hdfeos/src/EHapi.c:1952-1986 | the number type that is written ends with the number of its bits, so it is none of the short names a lookup also knows |
| `MetaInserted.DataFieldInserted` | TOOLKIT/hdfeos/src/EHapi.c:2158-2218 | the text that defining a data field inserts, line by line: the name, a DataType line that ends with the number of bits, the list of dimensions in quotes, the added lines; in front of the line that closes the group, numbered one higher than the fields there |
| `MetaInserted.GeoFieldInserted` | TOOLKIT/hdfeos/src/EHapi.c:2096-2156 | the same for a geolocation field |
| `MetaInserted.PointFieldInserted` | TOOLKIT/hdfeos/src/EHapi.c:2290-2327 | the same for a field of a level, in front of the line that closes the level |
| `MetaInserted.EntryInserted` | TOOLKIT/hdfeos/src/EHapi.c:1993-2370 | every entry is put in front of the line that closes its group, and nothing else changes; its lines are those of the next rows |
| `MetaFormat.DimensionWritten` | TOOLKIT/hdfeos/src/EHapi.c:1993-2020 | the call that defines a dimension and the lines it leaves in the file |
| `MetaFormat.MapWritten` | TOOLKIT/hdfeos/src/EHapi.c:2022-2058 | the same for a dimension map |
| `MetaFormat.IndexMapWritten` | TOOLKIT/hdfeos/src/EHapi.c:2060-2094 | the same for an index map |
| `MetaFormat.MergedWritten` | TOOLKIT/hdfeos/src/EHapi.c:2220-2259 | the same for a merged field list |
| `MetaFormat.LevelWritten` | TOOLKIT/hdfeos/src/EHapi.c:2261-2288 | the same for a level, numbered from 0 |
| `MetaFormat.LinkWritten` | TOOLKIT/hdfeos/src/EHapi.c:2329-2371 | the same for a level link |
| `MetaInserted.SwathInserted` | TOOLKIT/hdfeos/src/SWapi.c:414-434 | the lines of a new swath with its six empty groups, the call that inserts them, and their place: in front of the line that closes the section |
| `MetaInserted.GridInserted` | TOOLKIT/hdfeos/src/GDapi.c:459-520 | the same for a new grid with its parameters and three groups |
| `MetaInserted.PointInserted` | TOOLKIT/hdfeos/src/PTapi.c:303-314 | the same for a new point and its two groups |
| `MetaInserted.ParamsInserted` | TOOLKIT/hdfeos/src/EHapi.c:2373-2380 | parameter lines are put in front of the line that opens the Dimension group |
| `MetaTheorem.MergedTooLong` | TOOLKIT/hdfeos/src/EHapi.c:2241-2258 | the failing side: a merged field whose quoted list has 32000 characters or more is not inserted as the tree says |
| `MetaGather.GatheredIff` | TOOLKIT/hdfeos/src/SWapi.c:3995-4093 | SWdefinefield and GDdeffield take fields, of whatever dimensions, for a merge if and only if there are at most 512 and the names and the dimension lists, with their delimiters and the "ONE," of rank 2, stay shorter than the two buffers of 32000 and 64000; what is gathered are the names joined with commas, the lists joined with semicolons, and their number |
| `MetaGather.MergeTooLong` | TOOLKIT/hdfeos/src/SWapi.c:12783-12790 | the merge of gathered names is asked for, and not inserted, when the names with commas and quotes reach 32000 characters |
| `MetaGather.LongMergeAsked` | TOOLKIT/hdfeos/src/SWapi.c:4041-4061 | every swath and grid can be asked for such a merge: 490 different names of 64 characters pass every test of the definition, and the merged field is not inserted |
| `MetaTheorem.RefinementRun` | TOOLKIT/hdfeos/src/EHapi.c:1794-2478 | over every run of requests the text stays the print of the tree |
| `MetaElsewhere.FieldGoesOn` | TOOLKIT/hdfeos/src/EHapi.c:2290-2326 | EHinsertmeta does not bound the search for a level by its point: the field is appended in the first point from the requested one on that has such a level |
| `MetaElsewhere.FieldNowhere` | TOOLKIT/hdfeos/src/EHapi.c:2290-2326 | when no point from the requested one on has such a level there is no place for the field |
| `MetaElsewhere.LevelJustInserted` | TOOLKIT/hdfeos/src/PTapi.c:1640-1672 | PTdeflevel, the only caller, has inserted the level, so its fields have their place in their own point |
| `MetaElsewhere.LevelDefined` | TOOLKIT/hdfeos/src/PTapi.c:1636-1672 | PTdeflevel: the text after the level and all its fields is the print of the tree, and the fields land in the new level if and only if no earlier level of the point has a name that starts with its name |
| `MetaElsewhere.PrefixLevelMisleads` | TOOLKIT/hdfeos/src/EHapi.c:2290-2326 | a concrete case: the fields of a level "A" defined after "AB" end up in "AB", and "A" stays empty |
| `MetaTheorem.InitialIsEmpty` | TOOLKIT/hdfeos/src/EHapi.c:228-234 | the text EHopen writes into a new file is the print of the empty tree |
| `MetaTheorem.RunFromNew` | TOOLKIT/hdfeos/src/EHapi.c:228-234 | from a new file on, every run of requests ends in the print of its tree |
| `MetaCallers.ArrivesWhole` | TOOLKIT/hdfeos/src/SWapi.c:4222-4308 | EHinsertmeta receives the strings of a request if and only if they fit the buffers of the interface: 79 characters for the names of a map, 511 or 255 for a field, 255 for a link and for a field of a level, 511 for a new swath or point, 127 for the lines of a new grid up to its sizes, and eight dimensions |
| `MetaCallers.Overruns` | TOOLKIT/hdfeos/src/SWapi.c:4222-4308 | the requests whose strings overrun a buffer of the interface, exactly: a new swath or point whose text does not fit, a field of a level, a field with more than eight dimensions or no room for its added lines |
| `MetaCallers.ReceivedIs` | TOOLKIT/hdfeos/src/SWapi.c:3317-3323 | with names of the documented length, what arrives are the strings of the request with the second name of a map, or the dimension list of a field, cut, unless it is a new grid that is cut; that is again a request, and the same one if and only if everything fits |
| `MetaCallers.CreateFits` | TOOLKIT/hdfeos/src/SWapi.c:414-434 | the text of a new swath or point with a name of the documented length always fits |
| `MetaCallers.HeaderCut` | TOOLKIT/hdfeos/src/GDapi.c:459-463 | a concrete case: a grid with a name of 64 characters and two sizes of ten digits loses the newline behind the second size |
| `MetaCallers.AskRefines` | TOOLKIT/hdfeos/src/SWapi.c:4222-4308 | a call of an interface appends what its buffers leave of the request to the tree, if and only if that is shorter than a utility string and is not a new grid that GDcreate cuts |
| `MetaCallers.AsksRefine` | TOOLKIT/hdfeos/src/EHapi.c:1794-2478 | the same over every run of calls from the print of any tree: the text is the print of the tree after every call if and only if no new grid is cut |
| `MetaCallers.AsksFromNew` | TOOLKIT/hdfeos/src/EHapi.c:228-234 | from a new file on, the text is the print of the tree after every call of a run if and only if no new grid is cut, and then the run ends in the print of the tree of what the buffers leave |
| `MetaTheorem.NumberedInOrder` | TOOLKIT/hdfeos/src/EHapi.c:2010-2018 | entry j of a group stands behind the entries before it and carries its own number on its opening and its closing line: objects from 1, levels from 0 |
| `MetaStore.StoredOnce` | TOOLKIT/hdfeos/src/EHapi.c:2463-2471 | the sections determine the text and their number |
| `MetaStore.StoredBytes` | TOOLKIT/hdfeos/src/EHapi.c:2463-2471 | what is stored, byte by byte: sections of 32000, the text through them in order, NULs behind it |
| `MetaStore.ReadPosition` | TOOLKIT/hdfeos/src/EHapi.c:1875-1883 | each section is read to the end of what is there, and always lands inside the buffer, also when the text ends before it |
| `MetaStore.SdFile.constructor` | TOOLKIT/hdfeos/src/EHapi.c:221-239 | a new file holds one section with the initial text, the fewest that hold it |
| `MetaStore.SdFile.CountSections` | TOOLKIT/hdfeos/src/EHapi.c:1840-1860 | the sections are counted up to the first missing attribute |
| `MetaStore.SdFile.ReadMeta` | TOOLKIT/hdfeos/src/EHapi.c:1840-1887 | reading all sections into the zeroed buffer returns exactly the text last written, followed by NULs |
| `MetaStore.SpliceInPlace` | TOOLKIT/hdfeos/src/EHapi.c:2444-2461 | the backward shift, the copy and the zero fill leave the text before the offset, the segment, the text behind it, and NULs; no byte is overwritten before it has been moved |
| `MetaStore.EditBuffer` | TOOLKIT/hdfeos/src/EHapi.c:2412-2461 | the buffer grows by one section if and only if the new text and its terminator do not fit the 32000 bytes of each section there is, and one section is always enough; it holds the spliced text and NULs |
| `MetaStore.SdFile.WriteBack` | TOOLKIT/hdfeos/src/EHapi.c:2464-2471 | every section is written; the store holds the new text |
| `MetaStore.SdFile.InsertMeta` | TOOLKIT/hdfeos/src/EHapi.c:1794-2478 | EHinsertmeta on the stored sections: read, position, count, splice in place, write back; the stored text is the edited text; there is one section more if and only if the text does not fit, so that the fewest sections that hold the text stay the fewest |
| `MetaStore.SdFile.EHmetagroup` | TOOLKIT/hdfeos/src/EHapi.c:2602-2757 | EHmetagroup on the stored sections returns the stored text and the two pointers |
| `MetaApi.Carry` | TOOLKIT/hdfeos/src/EHapi.c:1794-2478 | one call of an interface carried out on the store, for every text on which the call is defined: the stored text is what the call makes of it, with at most one section more; from the print of a tree to the print of the tree with what the buffers leave of the request, if and only if that is not a new grid that is cut |
| `MetaApi.CarryAll` | TOOLKIT/hdfeos/src/EHapi.c:1794-2478 | over every run of calls the store holds what the calls make of its text, and grows by at most one section a call; a run with a place for every request and no grid that is cut leaves the print of its tree |
| `MetaApi.NewFile` | TOOLKIT/hdfeos/src/EHapi.c:221-239 | the same from a new store on |
| `MetaCString.SegString` | TOOLKIT/hdfeos/src/EHapi.c:1990-2408 | the segment EHinsertmeta makes of a string without a NUL, for every code, is one without a NUL |
| `MetaCString.ArrivesString` | TOOLKIT/hdfeos/src/GDapi.c:459-520 | whatever the buffers of the interfaces leave of the strings of a request, a cut grid included, holds no NUL |
| `MetaLookup.MetaGroupBrackets` | TOOLKIT/hdfeos/src/EHapi.c:2705-2752 | EHmetagroup brackets the named group if and only if the group is not Level or holds no level |
| `MetaWhole.MetaWholeBrackets` | TOOLKIT/hdfeos/src/EHapi.c:2705-2752 | without a group name EHmetagroup brackets the whole structure, from its name to the newline before its own last line |
| `MetaLookup.LevelStopsSearch` | TOOLKIT/hdfeos/src/EHapi.c:2733-2739 | a level's own END_GROUP line stops the untabbed search for the end of the Level group |
| `MetaLookup.GetMetaValue` | TOOLKIT/hdfeos/src/EHapi.c:2512-2565 | EHgetmetavalue: status, value and the moved begin pointer when the key starts before the end pointer; -1, an empty value and unchanged pointers when it does not |
| `MetaLookup.MissingIff` | TOOLKIT/hdfeos/src/EHapi.c:2530-2562 | the lookup fails if and only if no occurrence of the key starts between the pointers |
| `MetaForms.ValueThere` | TOOLKIT/hdfeos/src/EHapi.c:2530-2562 | on any text: the value is what follows the first such key up to the end of its line |
| `MetaForms.NamedByLine` | TOOLKIT/hdfeos/src/EHapi.c:1923-1935 | on any text: a structure is found by the first line of its own with its name, by EHinsertmeta and by EHmetagroup |
| `MetaForms.NamedByGroup` | TOOLKIT/hdfeos/src/EHapi.c:2705-2730 | on any text: a structure without a line for its name is found by the line that opens its group, as older files have it, by EHinsertmeta and by EHmetagroup |
| `MetaForms.Brackets` | TOOLKIT/hdfeos/src/EHapi.c:2733-2752 | on any text: the brackets are the first key of the group behind the name and the first line that closes it behind that |
| `MetaRead.LookupIs` | TOOLKIT/hdfeos/src/EHapi.c:2512-2565 | EHgetmetavalue refines a lookup on the printed lines: for every run of lines, every place of the begin pointer and every key, the status, the value and the place the pointer moves to |
| `MetaRows.RowReadsBack` | TOOLKIT/hdfeos/src/EHapi.c:2512-2565 | any attributes of a printed object, read in their order on the moving pointer, come back each from its own line if and only if no attribute on the way to one of them holds its key in its value or has a key that ends with it |
| `MetaRows.EntryReadsBack` | TOOLKIT/hdfeos/src/SWapi.c:5368-5408 | the same from the opening line of every entry of a file that is not a level |
| `MetaRows.InquiryReads` | TOOLKIT/hdfeos/src/SWapi.c:5355-5418 | the loop of the inquiries ends and reads one row of every entry of a group, in order, with the values that lookups on the entry's own lines read, whatever the names hold; the rows are the attributes it asks for, each from its own line, if and only if every entry is clear in that sense |
| `MetaInquire.MapsInquired` | TOOLKIT/hdfeos/src/SWapi.c:5303-5425 | SWinqmaps, for each choice of names, offsets and increments: it returns the stripped names and the numbers of all maps, in order, if and only if, for every map, each name on the way holds no key that is still looked for there, or the same name or number behind it, and what is read fits the buffer of 512 characters |
| `MetaInquire.MapsRead` | TOOLKIT/hdfeos/src/SWapi.c:5355-5418 | whatever the names hold, SWinqmaps returns what lookups on the lines of each map read, map by map in order |
| `MetaInquire.MapReadIff` | TOOLKIT/hdfeos/src/SWapi.c:5363-5408 | for one map: the outputs are what it was defined with if and only if its names let the lookups pass or hold the same themselves |
| `MetaInquire.MapsListed` | TOOLKIT/hdfeos/src/SWapi.c:5364-5388 | the comma-separated string of names is that of all maps if and only if, for every map, the first name does not hold "DataDimension=" or holds it one character before the second name, and both fit |
| `MetaInquire.IndexMapsInquired` | TOOLKIT/hdfeos/src/SWapi.c:5470-5590 | SWinqidxmaps, asked for names, with sizes or without: those of all index maps, in order, each with the size SWdiminfo gives for its first name, if and only if every pair of names is right in that sense and every size can be looked up |
| `MetaInquire.IndexSizeIs` | TOOLKIT/hdfeos/src/SWapi.c:5551-5557 | with a first name of the documented length the size can be looked up, and is the one the dimensions of the swath give |
| `MetaInquire.IndexSizesInquired` | TOOLKIT/hdfeos/src/SWapi.c:5518-5573 | SWinqidxmaps, asked for sizes only, returns if and only if there is no index map, and then with none |
| `MetaInquire.KeyInDimension` | TOOLKIT/hdfeos/src/SWapi.c:5368-5388 | a concrete case: a map with the geolocation dimension "DataDimension=a" is listed as "DataDimension=a/", whatever its data dimension is |
| `MetaDims.DimInfoReads` | TOOLKIT/hdfeos/src/SWapi.c:1029-1085 | SWdiminfo and GDdiminfo return -1 if no dimension has the name; else the size of the first one that has it, if and only if the name does not hold "Size=" or the number behind that is the size; what they return otherwise is that number |
| `MetaDims.SizeInName` | TOOLKIT/hdfeos/src/SWapi.c:1044-1070 | a concrete case: a dimension "Size=7" of size 3 is looked up as 7 |
| `MetaDims.DefineThenLookUp` | TOOLKIT/hdfeos/src/SWapi.c:920-1085 | define, then look up: the new dimension reads as its size, or as what follows "Size=" in its name, unless one of that name was there; every other name reads as before |
| `MetaForms.DimAbsent` | TOOLKIT/hdfeos/src/SWapi.c:1029-1085 | on any text: no line of the group ends with the quoted name, and the size is -1 |
| `MetaForms.DimNoSize` | TOOLKIT/hdfeos/src/SWapi.c:1044-1082 | on any text: the first such line has no size before the end of its object, and the size is -1 |
| `MetaForms.DimThere` | TOOLKIT/hdfeos/src/SWapi.c:1044-1070 | on any text: the size is the number of the first "Size=" behind the first such line |
| `MetaForms.NumberForms` | TOOLKIT/hdfeos/src/SWapi.c:1056-1065 | a size reads the same plain and in quotes |
| `MetaFields.FieldInfoReads` | TOOLKIT/hdfeos/src/SWapi.c:2817-2905 | SWfinfo and GDfieldinfo fail if no field has the name; else they return number type and dimension names of the first one that has it, by DataType and then DimList on the moved pointer, if and only if the name does not hold "DataType=" and the list fits a buffer of 512 characters, eight entries, and 64 characters for one entry; with that key in the name they return no type |
| `MetaFields.DefineFieldThenLookUp` | TOOLKIT/hdfeos/src/SWapi.c:4220-4308 | define a field, then look it up: type and dimensions come back if and only if its strings fit the buffer of the definition, its dimensions those of the lookup, and its name does not hold "DataType=", when none of that name was there |
| `MetaForms.TypeForms` | TOOLKIT/hdfeos/src/SWapi.c:2824-2853 | the names a number type is read from, three of them in a short form too; any other gives none |
| `MetaForms.FieldAbsent` | TOOLKIT/hdfeos/src/SWapi.c:2817-2822 | on any text: a field whose quoted name ends no line of the group is not there |
| `MetaForms.FieldFound` | TOOLKIT/hdfeos/src/GDapi.c:2878-2889 | on any text: a grid looks for the attributes of a field up to the end of its object, a swath up to the end of the group |
| `MetaForms.FieldNoType` | TOOLKIT/hdfeos/src/GDapi.c:2889-2945 | on any text: a field without a type fails; the dimensions of a grid's field are then not read, those of a swath's are |
| `MetaForms.FieldNoDims` | TOOLKIT/hdfeos/src/GDapi.c:2925-2945 | on any text: without dimensions a grid's field fails with its type read, and a swath reads what is not there |
| `MetaForms.FieldNeither` | TOOLKIT/hdfeos/src/GDapi.c:2889-2945 | on any text: with neither a grid's field fails with nothing read |
| `MetaFields.LetterLost` | TOOLKIT/hdfeos/src/SWapi.c:4222-4222 | a concrete case: a field of 64 letters over seven dimensions of 63 letters is looked up with the last dimension one letter short |
| `MetaFields.LongDimension` | TOOLKIT/hdfeos/src/SWapi.c:2895-2899 | a concrete case: a dimension of 64 letters overruns every lookup of a field that has it |
| `MetaFields.TypeInName` | TOOLKIT/hdfeos/src/SWapi.c:2824-2853 | a concrete case: a field "DataType=a" does not have its type |
| `MetaFields.DimNamesBack` | TOOLKIT/hdfeos/src/SWapi.c:2865-2905 | the printed dimension list, stripped, split and unquoted, is the list of dimensions |
| `MetaMaps.MapInfoReads` | TOOLKIT/hdfeos/src/SWapi.c:2218-2275 | SWmapinfo fails if there is no map between the two dimensions; else it returns offset and increment of the first one, by two lookups on the moved pointer, if and only if the names hold no "Offset=" or hold the same numbers |
| `MetaMaps.ClearNames` | TOOLKIT/hdfeos/src/SWapi.c:2238-2255 | the first lookup meets nothing in the names if and only if neither holds "Offset=" |
| `MetaMaps.DefineMapThenLookUp` | TOOLKIT/hdfeos/src/SWapi.c:3317-3323 | define a map, then look it up: its two numbers come back if and only if its names have at most 78 characters together and pass that condition, when there was none between the two dimensions; with longer names there is no such map |
| `MetaForms.MapAbsent` | TOOLKIT/hdfeos/src/SWapi.c:2218-2236 | on any text: without the two lines of its names in the group there is no map |
| `MetaForms.MapFound` | TOOLKIT/hdfeos/src/SWapi.c:2218-2236 | on any text: a map is looked up from the first place of the two lines on |
| `MetaForms.MapHalf` | TOOLKIT/hdfeos/src/SWapi.c:2238-2275 | on any text: a map without an offset or without an increment fails, with the other number read |
| `MetaMaps.LongNamesNoMap` | TOOLKIT/hdfeos/src/SWapi.c:3317-3323 | a concrete case: of two dimensions of 40 letters the second arrives with 38, and no map is found between the two |
| `MetaMaps.OffsetInName` | TOOLKIT/hdfeos/src/SWapi.c:2238-2246 | a concrete case: a map of the dimension "Offset=7" does not have its offset 3 |
| `MetaLinks.LinkInfoReads` | TOOLKIT/hdfeos/src/PTapi.c:1932-1996 | PTlinkinfo fails if no parent starts with the name; else it returns the field of the first link that has such a parent, if and only if its names hold no "LinkField=" or hold the same field |
| `MetaLinks.ClearLink` | TOOLKIT/hdfeos/src/PTapi.c:1980-1989 | the lookup meets nothing in the two level names if and only if neither holds "LinkField="; what it meets otherwise has two characters to strip |
| `MetaLinks.FieldInParent` | TOOLKIT/hdfeos/src/PTapi.c:1980-1989 | a concrete case: a link of the parent "LinkField=a" is not looked up with its field |
| `MetaLinks.DefineLinkThenLookUp` | TOOLKIT/hdfeos/src/PTapi.c:1866-1871 | define a link, then look it up: its names fit the buffer, and its field comes back under that condition, when no earlier parent starts with the same name |
| `MetaForms.LinkAbsent` | TOOLKIT/hdfeos/src/PTapi.c:1960-1978 | on any text: without a parent that starts with the name there is no link |
| `MetaForms.LinkThere` | TOOLKIT/hdfeos/src/PTapi.c:1964-1996 | on any text: the field is that of the first key behind the first such parent |
| `MetaMerged.SwathListReads` | TOOLKIT/hdfeos/src/SWapi.c:6396-6427 | SWSDfldsrch reads the field list of the merged field it looks for, named "MRGFLD_" and a field, if and only if its name does not hold "FieldList=" and the list fits a buffer of 2048 characters |
| `MetaForms.MergeNamed` | TOOLKIT/hdfeos/src/SWapi.c:6396-6427 | on any text: a merge is found by the line of its name, or else by the line that opens its object, as older files have it |
| `MetaForms.MergeList` | TOOLKIT/hdfeos/src/SWapi.c:6411-6427 | on any text: the list is what the parentheses of the first "FieldList=" hold, and without one there is none |
| `MetaMerged.GridListReads` | TOOLKIT/hdfeos/src/GDapi.c:5632-5675 | whichever merged field GDSDfldsrch looks for, it reads the list of the first one; the field's own list comes back if and only if its members are those of the first, which fit a buffer of 2048 characters, and the first one's name does not hold "FieldList=" |
| `MetaMerged.GridTakesFirst` | TOOLKIT/hdfeos/src/GDapi.c:5638-5675 | a concrete grid with two merged fields: asked for the second, GDSDfldsrch reads the list of the first |
| `MetaMerged.ListInName` | TOOLKIT/hdfeos/src/SWapi.c:6411-6427 | a concrete case: a merge whose first field is "FieldList=a" does not have its list |
| `CText.AtoiDec` | TOOLKIT/hdfeos/src/SWapi.c:1056-1065 | atoi undoes the printing of every number |
| `CText.DecStep` | TOOLKIT/hdfeos/src/EHapi.c:2015-2018 | what a number is printed as: its digits, the most significant first, and a sign if it is negative |
| `CText.AtoiReads` | TOOLKIT/hdfeos/src/SWapi.c:1056-1065 | atoi passes blanks, takes one sign and leading zeros, and stops behind the digits |
| `ListText.JoinSplit` | TOOLKIT/hdfeos/src/EHapi.c:1007-1065 | the entries EHparsestr finds, joined again, are the input; only the first can hold a delimiter, and only as its first character |
| `ListText.SplitJoinIff` | TOOLKIT/hdfeos/src/EHapi.c:1029-1055 | splitting undoes joining if and only if the first entry is not empty and no entry holds a delimiter past that place |
| `ListOps.ParseStr` | TOOLKIT/hdfeos/src/EHapi.c:990-1068 | EHparsestr on its pointer and length arrays: the starts and lengths of the entries; a count-only call returns the same count |
| `ListOps.JoinSlice` | TOOLKIT/hdfeos/src/EHapi.c:1031-1055 | entry k of a joined list lies at its start, behind one delimiter |
| `ListOps.LoadListStr` | TOOLKIT/hdfeos/src/EHapi.c:1208-1247 | EHloadliststr: copying each string with its terminator and appending the delimiter over it leaves the joined list |
| `ListOps.MetaListInto` | TOOLKIT/hdfeos/src/EHapi.c:1656-1744 | EHmetalist: the output is the parenthesised list of quoted entries |
| `ListOps.QuoteLoop` | TOOLKIT/hdfeos/src/EHapi.c:1700-1733 | the tracked list length is the length of the string in the buffer at every step |
| `ListText.QuotedListLength` | TOOLKIT/hdfeos/src/EHapi.c:1697-1738 | the output is longer than the input by two per entry and two |
| `ListText.QuotedListIs` | TOOLKIT/hdfeos/src/EHapi.c:1697-1738 | the output is a parenthesis, the entries in quotes joined with commas, a parenthesis |
| `ListNames.StrWithin` | TOOLKIT/hdfeos/src/EHapi.c:1104-1170 | EHstrwithin returns the index of the first entry equal to the target, and -1 if and only if there is none |
| `ListNames.AttrCat` | TOOLKIT/hdfeos/src/EHapi.c:3362-3451 | EHattrcat lists exactly the names without a reserved prefix, in order; the reported size is the list's length with and without a buffer |
| `ListNames.ListedIff` | TOOLKIT/hdfeos/src/EHapi.c:3420-3425 | a name is listed if and only if it is there and has no reserved prefix |
| `ListNames.ReservedLeftOut` | TOOLKIT/hdfeos/src/EHapi.c:3375-3379 | the names left out are those that start with "INDXMAP:", "_FV_" or "_BLKSOM:", and no other |
| `ListNames.ReservedNoMatter` | TOOLKIT/hdfeos/src/EHapi.c:3420-3425 | a name with one of the three prefixes makes no difference wherever it stands |
| `ListNames.OtherListed` | TOOLKIT/hdfeos/src/EHapi.c:3415-3446 | any other name stands in the list where it stands among the names |
| `ListNames.ListedAppend` | TOOLKIT/hdfeos/src/EHapi.c:3415-3446 | the listing goes through the names in their order |
| `ListNames.NamesBack` | TOOLKIT/hdfeos/src/EHapi.c:3415-3446 | EHparsestr recovers the listed names |
| `ListReverse.RevFlds` | TOOLKIT/hdfeos/src/EHapi.c:1424-1497 | EHrevflds on its buffer and pointer array: swapping the pointers, then overwriting the delimiters, then loading gives the list of the entries in reverse |
| `ListReverse.SwapPointers` | TOOLKIT/hdfeos/src/EHapi.c:1477-1484 | the pointers end up in reverse order |
| `ListReverse.CutEntries` | TOOLKIT/hdfeos/src/EHapi.c:1487-1492 | the NULs hit every delimiter and no entry, although the pointers have been swapped |
| `ListReverse.ReversedEntries` | TOOLKIT/hdfeos/src/EHapi.c:1437-1497 | parsing the reversed list gives the reversed entries if and only if it has one entry or neither end is a comma |
| `ListReverse.ReversedTwice` | TOOLKIT/hdfeos/src/EHapi.c:1437-1497 | reversing twice gives the list back if and only if it has one entry or each end that is a comma is a double comma |
| `ListReverse.SelfInverse` | TOOLKIT/hdfeos/src/EHapi.c:1437-1497 | a list without a comma at either end is its own double reverse |
| `FillField.SlabsTile` | TOOLKIT/hdfeos/src/EHapi.c:2832-2986 | in all three size regimes the slabs are inside the field, do not overlap, and cover it |
| `FillField.FillBuffer` | TOOLKIT/hdfeos/src/EHapi.c:2848-2853 | the buffer holds the given number of fill values |
| `FillField.FillPlanes` | TOOLKIT/hdfeos/src/EHapi.c:2896-2919 | planes are written n at a time, then the rest |
| `FillField.FillRows` | TOOLKIT/hdfeos/src/EHapi.c:2956-2981 | rows of one plane are written n at a time, then the rest |
| `FillField.FillFld` | TOOLKIT/hdfeos/src/EHapi.c:2798-2986 | EHfillfld: the buffer never exceeds HDFE_MAXMEMBUF, the slabs written are the tiling, every cell of the field holds the fill value, and every other cell is unchanged |
| `FillField.PaintedTiles` | TOOLKIT/hdfeos/src/EHapi.c:2832-2986 | writing the same value to tiles writes it to the whole box and nothing else |
| `Bisect.Bisect` | TOOLKIT/hdfeos/src/EHapi.c:3029-3138 | EHbisect returns -1 if and only if the end values have the same strict sign; otherwise it ends at the first turn whose midpoint change passes the test and returns that midpoint |
| `Bisect.HalfKept` | TOOLKIT/hdfeos/src/EHapi.c:3104-3119 | the middle becomes the limit on the side where the function has its first sign; a zero becomes the right limit |
| `Bisect.BracketKept` | TOOLKIT/hdfeos/src/EHapi.c:3104-3119 | every turn keeps a sign change or a zero between the limits although the left value is never updated |
| `Bisect.RootBracketed` | TOOLKIT/hdfeos/src/EHapi.c:3104-3132 | the limits at the end hold a sign change or a zero, and the root is their midpoint, inside the first limits |
| `Bisect.RootClose` | TOOLKIT/hdfeos/src/EHapi.c:3117-3132 | the last limits are closer than twice the criterion times the size of one of them |
| `Bisect.SettlesBy` | TOOLKIT/hdfeos/src/EHapi.c:3095-3128 | the bound on the turns: logarithmic in the width over the criterion times the smaller limit |
| `Bisect.StopsAwayFromZero` | TOOLKIT/hdfeos/src/EHapi.c:3095-3128 | the loop ends when zero is not between the limits |
| `Bisect.StopsIff` | TOOLKIT/hdfeos/src/EHapi.c:3095-3128 | for a function that crosses once, limits in either order and a criterion up to one half: the loop ends if and only if the criterion is positive and the crossing is not at 0 |
| `Bisect.StopsOffZero` | TOOLKIT/hdfeos/src/EHapi.c:3095-3128 | it ends for every positive criterion when the crossing is not at 0, also when 0 lies between the limits |
| `Bisect.StopsIfSignNearZero` | TOOLKIT/hdfeos/src/EHapi.c:3095-3128 | whatever its crossings and the limits, it ends when the function keeps one strict sign near 0 |
| `Bisect.StopsAbove` | TOOLKIT/hdfeos/src/EHapi.c:3095-3128 | for a criterion above three halves it ends for every function if and only if the limits are not both 0 |
| `Bisect.AtZeroLikeIdentity` | TOOLKIT/hdfeos/src/EHapi.c:3095-3128 | every function that crosses at 0 is bisected as the identity is: the limits alone decide |
| `Bisect.NeverAtZero` | TOOLKIT/hdfeos/src/EHapi.c:3095-3128 | the identity between -1 and 1 crosses at 0: the loop ends if and only if the criterion exceeds one half |
| `Bisect.NeverAtThirds` | TOOLKIT/hdfeos/src/EHapi.c:3095-3128 | the identity between -1 and 2: the loop ends if and only if the criterion exceeds three halves |
| `Angles.ConvAng` | TOOLKIT/hdfeos/src/EHapi.c:820-949 | EHconvAng: the six conversions, each by its own branch |
| `Angles.RadiansAre` | TOOLKIT/hdfeos/src/EHapi.c:824-846 | which way radians go: for every angle, degrees are to 180 as radians are to pi, the two packed conversions go through degrees, and pi is the number |
| `Angles.HalfTurn` | TOOLKIT/hdfeos/src/EHapi.c:824-949 | 180 degrees and 180000000 packed are pi radians, and pi radians are 180 degrees and 180000000 packed |
| `Angles.PackedIs` | TOOLKIT/hdfeos/src/EHapi.c:851-894 | what a packed angle is: a million times the degrees and a thousand times the minutes and the seconds, of either sign; unpacking gives that angle exactly, and packing does for minutes and seconds below 60 not next to a carry |
| `Angles.DegreesBack` | TOOLKIT/hdfeos/src/EHapi.c:851-894 | for every angle of either sign, packing leaves minutes and seconds below 60, and unpacking gives the angle to less than a ten millionth of an arc second |
| `Angles.PackedBack` | TOOLKIT/hdfeos/src/EHapi.c:851-894 | a packed angle survives the way to degrees and back if and only if its minutes and seconds are below 60 and its seconds are 0 or not within a ten millionth of a carry |
| `Angles.RadiansBack` | TOOLKIT/hdfeos/src/EHapi.c:837-846 | degrees and radians are inverse |
| `Angles.PackedRadiansBack` | TOOLKIT/hdfeos/src/EHapi.c:899-945 | the same accuracy for radians through packed degrees |
| `FortranStrings.C2FStrV` | TOOLKIT/hdfeos/include/cfortHdf.h:283-290 | c2fstrv, also with source and destination in one buffer: the packed vector, the rest unchanged, and the returned pointer, which is the start if and only if the width divides the size |
| `FortranStrings.F2CStrV` | TOOLKIT/hdfeos/include/cfortHdf.h:299-307 | f2cstrv, backward, also in one buffer: the terminated vector, the rest unchanged, and the returned pointer |
| `FortranStrings.PackElement` | TOOLKIT/hdfeos/include/cfortHdf.h:283-290 | one element forward: nothing unread is overwritten when the source does not start before the destination |
| `FortranStrings.UnpackElement` | TOOLKIT/hdfeos/include/cfortHdf.h:299-307 | one element backward: nothing unread is overwritten when the source ends before the destination does |
| `FortranStrings.KillTrailing` | TOOLKIT/hdfeos/include/cfortHdf.h:311-320 | kill_trailing: the C string loses exactly its trailing characters; nothing else changes |
| `FortranStrings.KillTrailingN` | TOOLKIT/hdfeos/include/cfortHdf.h:327-336 | kill_trailingn: the same up to the end pointer, and nothing for a pointer before the string |
| `FortranStrings.VKillTrailing` | TOOLKIT/hdfeos/include/cfortHdf.h:341-348 | vkill_trailing chops every element |
| `FortranStrings.NumElem` | TOOLKIT/hdfeos/include/cfortHdf.h:393-403 | num_elem returns the number of elements before the first that begins with the terminating characters |
| `StringVectors.ElementBack` | TOOLKIT/hdfeos/include/cfortHdf.h:413-423 | a C string comes back from Fortran, trimmed, if and only if it fits its element and does not end in a blank |
| `StringVectors.CVectorBack` | TOOLKIT/hdfeos/include/cfortHdf.h:413-423 | the same for every element of a vector |
| `StringVectors.FortranVectorBack` | TOOLKIT/hdfeos/include/cfortHdf.h:588-589 | a Fortran vector comes back from C, trimmed or not, if and only if it holds no NUL |
| `StringVectors.FortranBytes` | TOOLKIT/hdfeos/include/cfortHdf.h:283-290 | c2fstrv byte by byte: each element up to its NUL or its last byte but one, then blanks |
| `StringVectors.CBytes` | TOOLKIT/hdfeos/include/cfortHdf.h:299-307 | f2cstrv byte by byte: each element with a NUL behind it |
| `StringVectors.ChoppedBytes` | TOOLKIT/hdfeos/include/cfortHdf.h:341-348 | vkill_trailing byte by byte: one NUL in each element, where only trailing characters follow, and nothing else changes |
| `Dem.RowBack` | TOOLKIT/include/PGS_DEM.h:537-556 | the latitude of a row and the longitude of a column lead back to it if and only if it is not negative, for every offset and resolution |
| `Dem.LatNear` | TOOLKIT/include/PGS_DEM.h:537-552 | the pixel of a latitude is the one whose centre is at most half a pixel away, up to the epsilon |
| `Dem.LonNear` | TOOLKIT/include/PGS_DEM.h:554-556 | the same for the pixel of a longitude |
| `Dem.RowEdges` | TOOLKIT/include/PGS_DEM.h:537-552 | exactly which latitudes lie in a row: from its northern edge to short of its southern one, both moved north by the epsilon |
| `Dem.ColumnEdges` | TOOLKIT/include/PGS_DEM.h:554-556 | exactly which longitudes lie in a column |
| `Dem.FinerAndBack` | TOOLKIT/include/PGS_DEM.h:561-565 | to a finer resolution and back is the identity |
| `Dem.CentreDecides` | TOOLKIT/include/PGS_DEM.h:561-565 | between any two resolutions the pixel is the one that holds the centre, without any epsilon |
| `Dem.SamePixel` | TOOLKIT/include/PGS_DEM.h:537-565 | from fine to coarse directly or by way of the latitude: the same pixel if and only if the epsilon does not lift the centre over the edge |
| `Dem.SamePixels` | TOOLKIT/include/PGS_DEM.h:537-565 | the two ways agree on every pixel if and only if half a fine pixel exceeds the epsilon |
| `Dem.SubgridNumbers` | TOOLKIT/include/PGS_DEM.h:513-516 | subgrid numbers stay in range, and two pixels share one if and only if they lie in the same subgrid |
| `Dem.DivisionLeaves` | TOOLKIT/include/PGS_DEM.h:513-516 | the division of C: what is left over is smaller than the divisor and has the sign of the pixel |
| `Dem.SubgridSteps` | TOOLKIT/include/PGS_DEM.h:513-516 | subgrids are numbered down the columns: the next to the south has the next number, the next to the east is a column of subgrids further |
| `Dem.SubgridOfCentre` | TOOLKIT/include/PGS_DEM.h:522-525 | the subgrid found from a pixel's position is the pixel's own |
| `OpenFiles.OpenTakesLowest` | TOOLKIT/hdfeos/src/EHapi.c:130-486 | an open succeeds if and only if fewer than NEOSHDF files are open, no writer has the file when write access is wanted, and the library's calls succeed; it takes the lowest free entry and touches no other |
| `OpenFiles.FailedOpen` | TOOLKIT/hdfeos/src/EHapi.c:245-440 | an open that fails stores nothing, and leaves the file with the HDF library if and only if Hopen has succeeded and SDstart then fails |
| `OpenFiles.OpenKeeps` | TOOLKIT/hdfeos/src/EHapi.c:130-486 | an open keeps the invariant of the tables |
| `OpenFiles.CloseKeeps` | TOOLKIT/hdfeos/src/EHapi.c:3639-3671 | a close keeps it |
| `OpenFiles.CloseFrees` | TOOLKIT/hdfeos/src/EHapi.c:3639-3671 | a close of an id in range returns the library's status, zeroes its own entry whatever that is and leaves every other one; one file less is active if the entry was in use, and the file id is forgotten if and only if Hclose succeeds; a close of another id returns -1 and changes nothing |
| `OpenFiles.WriterGone` | TOOLKIT/hdfeos/src/EHapi.c:3659-3662 | after the close of its writer nobody has the file open for writing |
| `OpenFiles.EveryRun` | TOOLKIT/hdfeos/src/EHapi.c:130-486 | after every run of opens and closes unused entries are all zero, no two open files share an id, and no file is open for writing twice |
| `OpenFiles.HandleLives` | TOOLKIT/hdfeos/src/EHapi.c:582-611 | from a successful open until its close, whatever else happens, EHchkfid returns exactly what that open stored, and no other open returns the handle |
| `OpenFiles.CheckIs` | TOOLKIT/hdfeos/src/EHapi.c:572-611 | EHchkfid finds an id out of range exactly below 524288 and above 525288, finds nothing for one in range exactly when its entry is zero, and else what the entry holds |
| `OpenFiles.HandleDies` | TOOLKIT/hdfeos/src/EHapi.c:3659-3662 | over every run: from the close of a handle until an open returns it again, EHchkfid finds nothing for it |
| `OpenFiles.WritableAgain` | TOOLKIT/hdfeos/src/EHapi.c:3659-3662 | over every run: once its writer is closed, and until it is opened for writing again, a file can be opened for writing if and only if fewer than 1000 files are open and the library's calls succeed |
| `FileTable.Tables.Open` | TOOLKIT/hdfeos/src/EHapi.c:105-488 | EHopen on the four tables is the step of the state machine |
| `FileTable.Tables.Close` | TOOLKIT/hdfeos/src/EHapi.c:3628-3672 | EHclose on the four tables is the step of the state machine; the four entries of an id in range are zeroed, every other entry stays, and the status is the library's, or -1 for an id out of range |
| `FileTable.Tables.ChkFid` | TOOLKIT/hdfeos/src/EHapi.c:572-615 | EHchkfid on the four tables |
| `FileTable.Tables.AlreadyOpen` | TOOLKIT/hdfeos/src/EHapi.c:157-184 | the loop finds a writer of the file if and only if there is one |
| `FileTable.Tables.Store` | TOOLKIT/hdfeos/src/EHapi.c:471-484 | the loop fills the lowest free entry |

## Left out

- OpenFiles.Feasible: what the HDF library answers is a parameter; a new file id is
  assumed not to be in use, and Hopen to succeed on a file SDstart has just created.
- OpenFiles.CheckFid: for the one id behind the tables the C code reads past their
  end; the model has an outcome of its own for it.
- MetaTheorem.Refinement: names and attribute lines are restricted to those the
  format can carry (no quote, tab, newline, comma, slash or colon, no reserved word,
  not ending in an equals sign unless a caller's buffer ends them there), searched names
  to the documented 64 characters (`TOOLKIT/hdfeos/doc/HDFEOS-DEFINITION.TXT`) and to
  names other than a single closing parenthesis, which the search could take for the
  end of a list; numbers are of 32 bits.
- MetaTheorem.LocateExact: a structure named by a single closing parenthesis, as above.
- MetaCallers.AskRefines: the parameter lines of GDdefproj, GDdeforigin and GDdefpixreg
  hold numbers and fixed words, whose buffers are not modelled. What the interfaces check before they build the strings is not modelled
  either, except for the tests of a merge.
- MetaLookup.GetMetaValue: a text without a newline behind the key is undefined in
  C and excluded.
- MetaFields.FieldInfoReads: the extra attributes of a field are the compression and
  tiling lines SWdefinefield and GDdeffield write (`TOOLKIT/hdfeos/src/SWapi.c:4250-4290`,
  `TOOLKIT/hdfeos/src/GDapi.c:3860-3925`), none of which ends with a quote; the sizes of
  the dimensions are lookups of their own (`MetaDims.DimInfoReads`), and the actual size
  of an appendable field comes from the HDF library.
- MetaLinks.LinkInfoReads: the buffer for the field is the caller's.
- MetaMerged.SwathListReads: merged fields in the older form of the metadata, named in
  their OBJECT line, are never printed by this layer (`MetaForms.MergeNamed` has them).
- MetaLookup.MetaGroupBrackets: metadata that names a structure in its GROUP line is
  never printed by this layer (`MetaForms.NamedByGroup` has it).
- ListOps.ParseStr: a call that fills a table needs room for one entry even for the
  empty string, since the C code stores the first pointer before it looks;
  EHrevflds, EHstrwithin and EHmetalist, which allocate no entry for the empty
  string, are therefore modelled for lists that are not empty.
- ListNames.StrWithin: entries of 128 characters or more overrun the stack buffer
  and are excluded.
- FillField.FillFld: rank 3 and positive sizes, one row of the field no larger than
  the buffer (otherwise the C code divides by zero); the hyperslab writes succeed,
  and the status is the last one's.
- Bisect.Bisect: the function parameters that stay fixed are part of the function.
- FortranStrings.NumElem: more terminating characters than an element is long, and
  a vector without a terminating element, are excluded.
- Floating-point rounding, 32-bit overflow (that of atoi on a long number included),
  failing allocation and the size of a C character are not modelled.
- The retry loop for NFS, the raising of HDF's own limit on open files beyond its
  status, error reporting and the attribute writes of EHopen into an existing file.
- EHcloseall returns inside its loop, so it closes the file in entry 0 or none
  (`TOOLKIT/hdfeos/src/EHapi.c:3827`): it has no property of its own.
- EHattr, EHattrinfo, EHgetid, EHgetversion, EHidinfo and EHfilename pass arguments on
  to the HDF library and return its answers; EHinquire joins the names the library
  lists; EHchkname tests one string for four characters.
- The VMS and CRAY branches and the macro tables of `cfortHdf.h`, and the second
  copy of the string helpers in `TOOLKIT/include/cfortran.h`.
