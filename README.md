# A verified model of the RAVE product core

RAVE is a toolkit for weather-radar products. This project models four pieces of it in Dafny and proves what their code promises:

- **The cartesian product** (`librave/transform/cartesian.c`). An image on a projected grid. It owns:
  - its parameters, in a table keyed by quantity;
  - its attributes, in a table keyed by name;
  - its quality fields, in a list;
  - its projection.

  It also keeps a current parameter, resolved from the name of its default parameter. Every object it refers to lives in a shared runtime that counts references (`RaveObject.Runtime`). The class `CartesianProduct.Cartesian` keeps two invariants:
  - every reference the product holds is counted;
  - whenever the parameter table has an entry under the default name, that entry is the current parameter. A current parameter that has been removed from the table stays current, as the source's remove does.

  Every operation states its new state. It also states how the counts move:
  - everyone else's references stay as they were, or the caller receives exactly one new reference;
  - no released object comes back to life.
- **The non-owning list** (`librave/transform/rave_list.h`). `RaveListModel.RaveList` is a class over a sequence. Its methods follow the documented contracts. Sorting is proved both ordered and a permutation.
- **The HDF5 layout rules** (`librave/transform/rave_hlhdf_utilities.c`):
  - the constant translation table between the toolkit's data types and HLHDF format specifiers (module `RaveHlhdfTypes`), with both table scans and their round trip;
  - the node-naming rules. Names live in 1024-character buffers. Attributes go under how/, what/ or where/. Datasets are named "data" and stored with the dimensions swapped.
  - `RaveHL_addAttributes`, and the walk of `RaveHL_loadAttributesAndData` that hands nodes back to an object (module `RaveHlhdf`).
- **The Python wrapper identity protocol** (`modules/pyradardefinition.c`, module `PyRadarDefinition`). A native radar definition has at most one Python wrapper. `New` returns the existing wrapper when there is one. Deallocation unbinds before it releases. Class `Interpreter` keeps the invariant that binding slots and wrapped objects name each other, and every step is proved against a value-level step function.

The reference-counting runtime (`rave_object.c`) is not part of this model. Module `RaveObject` describes it by what its callers rely on:
- `RAVE_OBJECT_NEW` gives a fresh object with one reference;
- `RAVE_OBJECT_COPY` retains;
- `RAVE_OBJECT_RELEASE` releases;
- `RAVE_OBJECT_CLONE` gives fresh objects, and for a type with a copy constructor runs the plain constructor first;
- the owning hash table retains on put and hands its reference over on remove.

Modules: `Wrappers` (Option), `RaveObject`, `RaveListModel`, `RaveHlhdfTypes`, `RaveHlhdf`, `CartesianProduct`, `PyRadarDefinition`.

## Model

| member | source | states |
|---|---|---|
| RaveListModel.InsertPosition | librave/transform/rave_list.h:47-55 | an index in [0, size] is used as given; any other index appends at the end |
| RaveListModel.InsertAt | librave/transform/rave_list.h:47-55 | the item sits at the index, earlier items keep their place, later ones move up by one, and the contents gain exactly that item |
| RaveListModel.RemoveAt | librave/transform/rave_list.h:79-85 | the item at the index is gone, earlier items keep their place, later ones move down by one, and the contents lose exactly that item |
| RaveListModel.RemoveInsertRoundTrip | librave/transform/rave_list.h:47-55 | removing what was just inserted at an index gives the original list back |
| RaveListModel.InsertRemoveRoundTrip | librave/transform/rave_list.h:79-85 | putting back the item just removed from an index gives the original list back |
| RaveListModel.InsertSorted | librave/transform/rave_list.h:98-107 | one sorting insertion gives a list one longer that holds exactly one more copy of the item |
| RaveListModel.InsertSortedOrdered | librave/transform/rave_list.h:98-107 | one sorting insertion keeps an ordered list ordered |
| RaveListModel.OrderedPairwise | librave/transform/rave_list.h:98-107 | with a transitive comparator, a list ordered neighbour by neighbour is ordered between any two positions |
| RaveListModel.RaveList.constructor | librave/transform/rave_list.h:32-37 | a new list is empty |
| RaveListModel.RaveList.Add | librave/transform/rave_list.h:39-45 | the item is appended at the end |
| RaveListModel.RaveList.Insert | librave/transform/rave_list.h:47-55 | the item is inserted at the index, or appended when the index is outside [0, size] |
| RaveListModel.RaveList.Size | librave/transform/rave_list.h:57-62 | the number of items |
| RaveListModel.RaveList.Get | librave/transform/rave_list.h:64-70 | the item at the index, and none exactly when the index is out of range |
| RaveListModel.RaveList.GetLast | librave/transform/rave_list.h:72-77 | the last item, and none exactly when the list is empty |
| RaveListModel.RaveList.Remove | librave/transform/rave_list.h:79-85 | the item that was at the index is returned and taken out; out of range, nothing changes |
| RaveListModel.RaveList.RemoveLast | librave/transform/rave_list.h:87-92 | none on an empty list; otherwise the old list is the new list followed by the returned item |
| RaveListModel.RaveList.Sort | librave/transform/rave_list.h:98-107 | afterwards every item is ordered before the next by the comparator, and the contents are a permutation of the old ones |
| RaveHlhdfTypes.Ordinal | librave/transform/rave_hlhdf_utilities.c:45-69 | every specifier has a position in the enumeration, at most that of the end marker |
| RaveHlhdfTypes.OrdinalInjective | librave/transform/rave_hlhdf_utilities.c:45-69 | distinct specifiers have distinct positions |
| RaveHlhdfTypes.TableRow | librave/transform/rave_hlhdf_utilities.c:45-69 | row i of the table holds the specifier at position i; only the last row holds the end marker; each row maps its specifier to the type of that specifier |
| RaveHlhdfTypes.RaveToHlhdfType | librave/transform/rave_hlhdf_utilities.c:562-574 | the scan by type gives, for every type, its first specifier in the table (CHAR to HLHDF_CHAR, SHORT to HLHDF_SHORT, and so on), and UNDEFINED to HLHDF_UNDEFINED |
| RaveHlhdfTypes.RaveToHlhdfPrefix | librave/transform/rave_hlhdf_utilities.c:562-574 | before the row of the first match, the scan has not met the type |
| RaveHlhdfTypes.PreferredComesFirst | librave/transform/rave_hlhdf_utilities.c:45-69 | every specifier comes no earlier in the table than the one the scan by type picks for its type |
| RaveHlhdfTypes.HlhdfToRaveType | librave/transform/rave_hlhdf_utilities.c:576-588 | the lookup by specifier, front to back over the same table, merges the variants (SCHAR to CHAR, USHORT to SHORT, UINT to INT, ULONG to LONG) and maps LLONG, ULLONG, LDOUBLE, STRING, COMPOUND, ARRAY and the end marker to UNDEFINED |
| RaveHlhdfTypes.HlhdfToRaveSuffix | librave/transform/rave_hlhdf_utilities.c:576-588 | from any row on, the lookup by specifier finds the specifier's row or reaches the end marker |
| RaveHlhdfTypes.RaveHlhdfRoundTrip | librave/transform/rave_hlhdf_utilities.c:562-588 | translating a type to HLHDF and back gives the same type, for every type |
| RaveHlhdfTypes.HlhdfRaveCanonical | librave/transform/rave_hlhdf_utilities.c:562-588 | translating a specifier back and forth lands on the preferred specifier of its merged type, and is then stable |
| RaveHlhdfTypes.IntegerFormats | librave/transform/rave_hlhdf_utilities.c:117-131 | createAttribute reads HLHDF_SCHAR through HLHDF_ULLONG as integers and HLHDF_FLOAT through HLHDF_LDOUBLE as reals; plain HLHDF_CHAR is neither |
| RaveHlhdf.SlashSurvivesFolding | librave/transform/rave_hlhdf_utilities.c:426-450 | case folding keeps '/', so a name that starts with "how/" in any case has its '/' in the same place |
| RaveHlhdf.GroupedNameHasSlash | librave/transform/rave_hlhdf_utilities.c:426-450 | a name under how/, what/ or where/ contains a '/' |
| RaveHlhdf.NamesOf | librave/transform/rave_hlhdf_utilities.c:190-204 | the names of a node list are exactly the names of its nodes |
| RaveHlhdf.FindNode | librave/transform/rave_hlhdf_utilities.c:152-188 | a lookup finds a node exactly when the name is present, and the node it finds carries that name |
| RaveHlhdf.FindAppended | librave/transform/rave_hlhdf_utilities.c:352-390 | a node appended under a new name is the one a lookup of that name finds |
| RaveHlhdf.CountNamedAppend | librave/transform/rave_hlhdf_utilities.c:398-462 | counting nodes of a name distributes over concatenation |
| RaveHlhdf.CreateAttribute | librave/transform/rave_hlhdf_utilities.c:104-150 | an integer node gives a long attribute, a real node a double attribute and a string node its text; any other format gives none; the attribute has no name yet |
| RaveHlhdf.GetAttribute | librave/transform/rave_hlhdf_utilities.c:152-188 | an attribute is returned only for a name that fits the buffer and is present, and it carries that full name |
| RaveHlhdf.HasNodeByName | librave/transform/rave_hlhdf_utilities.c:190-204 | true exactly when the name fits the buffer and is present |
| RaveHlhdf.GetStringValue | librave/transform/rave_hlhdf_utilities.c:206-244 | a value is returned only for a name that fits and is present as a string node |
| RaveHlhdf.AddAttributeOutcome | librave/transform/rave_hlhdf_utilities.c:330-395 | success needs a name that fits and a named attribute; a node is added only under "<name>/<attrname>", only when no node of that name exists, and only when its name fits the buffer |
| RaveHlhdf.ApplyKeeps | librave/transform/rave_hlhdf_utilities.c:352-390 | adding an attribute keeps every node already there, in front |
| RaveHlhdf.StoredNamePresent | librave/transform/rave_hlhdf_utilities.c:352-390 | after a successful add of a valued attribute, "<name>/<attrname>" is present, whether added now or found before |
| RaveHlhdf.AddAttributeAgreesWhenItFits | librave/transform/rave_hlhdf_utilities.c:350-352 | whenever "<name>/<attrname>" fits the buffer, the corrected add and the add as written do the same |
| RaveHlhdf.AddAttributeOverflows | librave/transform/rave_hlhdf_utilities.c:350-352 | as written, the add builds a 1105-character node name in a 1024-character buffer |
| RaveHlhdf.AddedNamesFit | librave/transform/rave_hlhdf_utilities.c:350-352 | the corrected add never adds a node whose name does not fit the buffer |
| RaveHlhdf.AddThenGetAttribute | librave/transform/rave_hlhdf_utilities.c:152-188 | round trip: an attribute stored as a new node reads back with its value under "<name>/<attrname>" |
| RaveHlhdf.AttributeOutcome | librave/transform/rave_hlhdf_utilities.c:359-390 | a long, double or non-NULL string gives an attribute node under the full name; a NULL string is skipped; any other format fails |
| RaveHlhdf.StoredValueReadsBack | librave/transform/rave_hlhdf_utilities.c:359-372 | the node written for a long, double or string value reads back as that value |
| RaveHlhdf.AddAttributeSkips | librave/transform/rave_hlhdf_utilities.c:372-390 | a node already present under the full name, and a string attribute whose value is NULL, both count as success and add nothing |
| RaveHlhdf.StringValueRoundTrip | librave/transform/rave_hlhdf_utilities.c:206-244 | round trip: a string stored by createStringValue is what getStringValue reads back |
| RaveHlhdf.GroupStepFor | librave/transform/rave_hlhdf_utilities.c:426-450 | the group step of addAttributes succeeds only for names under how/, what/ or where/ |
| RaveHlhdf.InitialGroups | librave/transform/rave_hlhdf_utilities.c:408-410 | each group flag is set exactly when "<name>/<group>" fits the buffer and is present |
| RaveHlhdf.AddAttributesFrom | librave/transform/rave_hlhdf_utilities.c:398-462 | addAttributes only appends to the node list; the object name is used as an argument ("%s"), the corrected reading of line 453 recorded under Findings |
| RaveHlhdf.AddAttributesSpec | librave/transform/rave_hlhdf_utilities.c:398-462 | addAttributes only appends, every node it appends lies under "<name>/", and it succeeds only when every attribute is named under how/, what/ or where/ |
| RaveHlhdf.AddedNodesUnderName | librave/transform/rave_hlhdf_utilities.c:408-455 | every node addAttributes appends, group or attribute, lies under "<name>/" |
| RaveHlhdf.FormatNoArgs | librave/transform/rave_hlhdf_utilities.c:340-342 | vsnprintf of a format without arguments: "%%" gives '%', other characters are copied, a name without '%' comes back unchanged, any other conversion gives no name |
| RaveHlhdf.AddAttributesAgreeWithoutPercent | librave/transform/rave_hlhdf_utilities.c:453 | for an object name without '%' the written addAttributes and the corrected one give the same flag and node list |
| RaveHlhdf.AttributeLeavesItsObject | librave/transform/rave_hlhdf_utilities.c:408-453 | for the name "a%%b" the written code creates the group "a%%b/how" but stores the attribute at "a%b/how/x", outside the object |
| RaveHlhdf.AttributeIsNotGroup | librave/transform/rave_hlhdf_utilities.c:426-455 | an attribute node name never equals a group node name |
| RaveHlhdf.AddAttributesAcceptsOnlyGroups | librave/transform/rave_hlhdf_utilities.c:421-450 | when addAttributes succeeds, every attribute was named and sat under how/, what/ or where/ |
| RaveHlhdf.RejectsUngroupedName | librave/transform/rave_hlhdf_utilities.c:421-450 | one attribute outside the three groups, at any position, makes addAttributes fail |
| RaveHlhdf.GroupCreatedAtMostOnce | librave/transform/rave_hlhdf_utilities.c:408-450 | each of name/how, name/what and name/where is appended at most once, and not at all when it already existed |
| RaveHlhdf.SplitCount | librave/transform/rave_hlhdf_utilities.c:398-462 | counts of appended names add up over two stages |
| RaveHlhdf.OutcomeAddsNoGroup | librave/transform/rave_hlhdf_utilities.c:452-455 | adding an attribute of an accepted name never appends a group node |
| RaveHlhdf.GroupStepCount | librave/transform/rave_hlhdf_utilities.c:426-443 | the group step appends at most the one group it creates, and then sets that group's flag |
| RaveHlhdf.LoadStep | librave/transform/rave_hlhdf_utilities.c:624-657 | a node is looked at only when its name is longer than the prefix, starts with it in any case and has '/' next; attribute calls carry the name under how/, what/ or where/; data calls come from a dataset named "data" of defined type |
| RaveHlhdf.LoadPrefixNext | librave/transform/rave_hlhdf_utilities.c:624-657 | one more node of a walk that has not failed: its step decides the flag and adds its call |
| RaveHlhdf.LoadWalk | librave/transform/rave_hlhdf_utilities.c:623-657 | the loop's result is the walk over all nodes |
| RaveHlhdf.LoadStopsAtFailure | librave/transform/rave_hlhdf_utilities.c:624 | after the first failure, later nodes change nothing |
| RaveHlhdf.LoadPrefixOkIff | librave/transform/rave_hlhdf_utilities.c:624-657 | the walk over the first k nodes succeeds exactly when every one of their steps does |
| RaveHlhdf.LoadSpec | librave/transform/rave_hlhdf_utilities.c:599-660 | loading succeeds exactly when the name fits the buffer and every node's step succeeds; every call it makes carries a name under how/, what/ or where/, or a defined data type |
| RaveHlhdf.LoadPrefixRouted | librave/transform/rave_hlhdf_utilities.c:624-657 | every call over the first k nodes is routed as the step rules say |
| RaveHlhdf.DatasetRoundTrip | librave/transform/rave_hlhdf_utilities.c:645-649 | a dataset stored with dimensions [ysize, xsize] is handed to the data callback as (xsize, ysize) with its type |
| RaveHlhdf.AttributeRoundTrip | librave/transform/rave_hlhdf_utilities.c:631-641 | an attribute written under how/, what/ or where/ is handed back to the attribute callback with its name and value |
| RaveHlhdf.NodeList.CreateGroup | librave/transform/rave_hlhdf_utilities.c:248-277 | the group node is added exactly when its name fits the buffer |
| RaveHlhdf.NodeList.CreateStringValue | librave/transform/rave_hlhdf_utilities.c:279-320 | the string node is added exactly when its name fits the buffer |
| RaveHlhdf.NodeList.AddAttribute | librave/transform/rave_hlhdf_utilities.c:330-395 | the node list and flag follow the corrected add outcome |
| RaveHlhdf.NodeList.EnsureGroup | librave/transform/rave_hlhdf_utilities.c:408-450 | one group step of addAttributes, as the group-step function says |
| RaveHlhdf.NodeList.AddAttributes | librave/transform/rave_hlhdf_utilities.c:398-462 | the loop's flag and node list are those of the addAttributes function |
| RaveHlhdf.NodeList.CreateDataset | librave/transform/rave_hlhdf_utilities.c:464-505 | the dataset node is added, with dimensions [ysize, xsize], exactly when its name fits |
| RaveHlhdf.DatasetNodeFor | librave/transform/rave_hlhdf_utilities.c:464-505 | the dataset node carries the name and the data, has extent ysize on axis 0 and xsize on axis 1, and its specifier translates back to a defined type |
| RaveHlhdf.NodeList.AddImageAttributes | librave/transform/rave_hlhdf_utilities.c:542-556 | adds CLASS="IMAGE" and, only when that succeeds, IMAGE_VERSION="1.2" under the dataset; the flag is the success of both adds and the node list is the result of both, keeping the old nodes in front |
| RaveHlhdf.ImageAttributesReadBack | librave/transform/rave_hlhdf_utilities.c:542-556 | on a dataset whose name leaves room and that has neither attribute, both are added and read back as "IMAGE" and "1.2" |
| RaveHlhdf.ImageAttributesNamed | librave/transform/rave_hlhdf_utilities.c:542-556 | when the image attributes are reported added, both names are present under the dataset |
| RaveHlhdf.NodeList.AddData | librave/transform/rave_hlhdf_utilities.c:507-560 | fails without data or on a name that does not fit; otherwise adds "<name>/data"; for UCHAR data the flag and the node list are those of the image attributes added to the list with the dataset |
| RaveHlhdf.NodeList.LoadAttributesAndData | librave/transform/rave_hlhdf_utilities.c:599-660 | the flag and the calls made are those of the load function |
| CartesianProduct.FirstSlash | librave/transform/cartesian.c:662-665 | the position of the first '/', or none when there is no '/' |
| CartesianProduct.SplitGroup | librave/transform/cartesian.c:662-665 | a name with a '/' splits into a group without '/', the '/', and the rest |
| CartesianProduct.AttributeNameAccepted | librave/transform/cartesian.c:662-673 | an accepted name has a group, and starts with "how/" or is "what/prodpar", ignoring case |
| CartesianProduct.AttributeNameAcceptedIff | librave/transform/cartesian.c:662-673 | a name is accepted exactly when it starts with "how/" (any case) and has no further '/', or equals "what/prodpar" (any case) |
| CartesianProduct.HowNameAccepted | librave/transform/cartesian.c:666-668 | "HOW/task" is accepted |
| CartesianProduct.NestedHowNameRejected | librave/transform/cartesian.c:666-667 | "how/a/b" is rejected |
| CartesianProduct.WhereNameRejected | librave/transform/cartesian.c:669-673 | "where/lon" is rejected |
| CartesianProduct.AdmissionRules | librave/transform/cartesian.c:758-773 | no quantity is rejected and leaves the grid; an empty table adopts the parameter's size; otherwise exactly a matching size is admitted; an admitted parameter matches the grid afterwards |
| CartesianProduct.ListedValues | librave/transform/cartesian.c:626-644 | the listed parameter values are all transformable exactly when every table entry is, and the list is empty exactly when the table is |
| CartesianProduct.HeldAlive | librave/transform/cartesian.c:80-214 | an object the product refers to is alive while its references are counted |
| CartesianProduct.OptSeq | librave/transform/cartesian.c:203-211 | an optional pointer as a list of at most one item holds the same references |
| CartesianProduct.ListedHeld | librave/transform/cartesian.c:203-211 | the references the destructor gives up are exactly those the product holds |
| CartesianProduct.CloneParts | librave/transform/cartesian.c:149-155 | the clones have the same keys and length, are fresh, and the counts grow by exactly the clones' references |
| CartesianProduct.CloneHoldings | librave/transform/cartesian.c:149-159 | as CloneParts, and the current parameter is re-resolved from the default name in the cloned table; the counts grow by exactly what the clone holds (the corrected clone of the Findings row) |
| CartesianProduct.CloneHoldingsAsWritten | librave/transform/cartesian.c:98-103 | the plain constructor's six counted objects are created, then overwritten by the clones (c:141-155) without a release: the counts grow by the clone's holdings plus one reference to each of the six, which stay alive once those holdings are given back |
| CartesianProduct.ConstructorRefs | librave/transform/cartesian.c:98-103 | the plain constructor creates six fresh objects, numbered one after another, and the counts gain exactly one reference to each |
| CartesianProduct.OrphansOutliveClone | librave/transform/cartesian.c:141-155 | objects counted besides the clone's holdings each keep exactly one reference after the clone's holdings are released, so the counts never return to what they were |
| CartesianProduct.ConsecutiveOnce | librave/transform/cartesian.c:98-103 | objects created one after another are distinct, each counted once |
| CartesianProduct.Cartesian.constructor | librave/transform/cartesian.c:80-121 | the defaults: sizes 0, IMAGE, UCHAR, undefined product, default parameter "DBZH", no current parameter, empty tables and list, nothing held |
| CartesianProduct.Cartesian.SetTime | librave/transform/cartesian.c:219-223 | the nominal time changes exactly when the value is accepted |
| CartesianProduct.Cartesian.SetDate | librave/transform/cartesian.c:231-235 | the nominal date changes exactly when the value is accepted |
| CartesianProduct.Cartesian.SetStartTime | librave/transform/cartesian.c:243-247 | the start time changes exactly when the value is accepted |
| CartesianProduct.Cartesian.SetStartDate | librave/transform/cartesian.c:258-262 | the start date changes exactly when the value is accepted |
| CartesianProduct.Cartesian.SetEndTime | librave/transform/cartesian.c:273-277 | the end time changes exactly when the value is accepted |
| CartesianProduct.Cartesian.SetEndDate | librave/transform/cartesian.c:288-292 | the end date changes exactly when the value is accepted |
| CartesianProduct.Cartesian.GetStartTime | librave/transform/cartesian.c:249-256 | the start time when set, else the nominal time; unset only when both are |
| CartesianProduct.Cartesian.GetStartDate | librave/transform/cartesian.c:264-271 | the start date when set, else the nominal date; unset only when both are |
| CartesianProduct.Cartesian.GetEndTime | librave/transform/cartesian.c:279-286 | the end time when set, else the nominal time; unset only when both are |
| CartesianProduct.Cartesian.GetEndDate | librave/transform/cartesian.c:294-301 | the end date when set, else the nominal date; unset only when both are |
| CartesianProduct.Cartesian.SetSource | librave/transform/cartesian.c:303-321 | the source becomes the value, or none for NULL |
| CartesianProduct.Cartesian.SetObjectType | librave/transform/cartesian.c:329-337 | succeeds exactly for IMAGE or COMP; any other type leaves the object type unchanged |
| CartesianProduct.Cartesian.SetXSize | librave/transform/cartesian.c:345-350 | sets the x size |
| CartesianProduct.Cartesian.SetYSize | librave/transform/cartesian.c:352-356 | sets the y size |
| CartesianProduct.Cartesian.SetAreaExtent | librave/transform/cartesian.c:370-377 | sets the four corners of the extent |
| CartesianProduct.Cartesian.SetXScale | librave/transform/cartesian.c:396-400 | sets the x scale |
| CartesianProduct.Cartesian.SetYScale | librave/transform/cartesian.c:408-412 | sets the y scale |
| CartesianProduct.Cartesian.SetProduct | librave/transform/cartesian.c:420-425 | sets the product type and succeeds |
| CartesianProduct.Cartesian.GetNodata | librave/transform/cartesian.c:433-440 | 0.0 without a current parameter, else that parameter's nodata |
| CartesianProduct.Cartesian.GetUndetect | librave/transform/cartesian.c:442-449 | 0.0 without a current parameter, else that parameter's undetect |
| CartesianProduct.Cartesian.SetValue | librave/transform/cartesian.c:535-551 | fails without a current parameter, else is that parameter's answer |
| CartesianProduct.Cartesian.GetValue | librave/transform/cartesian.c:553-569 | UNDEFINED without a current parameter, else that parameter's answer |
| CartesianProduct.Cartesian.ReleaseCurrent | librave/transform/cartesian.c:489 | the current parameter is released and unset; the counts stay balanced |
| CartesianProduct.Cartesian.AdoptCurrent | librave/transform/cartesian.c:490-492 | a table entry becomes the current parameter and is retained once |
| CartesianProduct.Cartesian.ReplaceCurrent | librave/transform/cartesian.c:489-492 | the old current parameter is released and the new one retained |
| CartesianProduct.Cartesian.ReleaseProjection | librave/transform/cartesian.c:511 | the projection is released and unset |
| CartesianProduct.Cartesian.AdoptProjection | librave/transform/cartesian.c:512-514 | a live projection is retained into the empty slot |
| CartesianProduct.Cartesian.PutParameter | librave/transform/cartesian.c:775 | the parameter is stored under its quantity; the one it replaces is released |
| CartesianProduct.Cartesian.DropParameter | librave/transform/cartesian.c:810-811 | the entry leaves the table and its reference is released |
| CartesianProduct.Cartesian.PutAttribute | librave/transform/cartesian.c:668-670 | the attribute is stored under its name; the one it replaces is released |
| CartesianProduct.Cartesian.AppendField | librave/transform/cartesian.c:725 | the field is retained and appended |
| CartesianProduct.Cartesian.DropField | librave/transform/cartesian.c:744-745 | the field at the index leaves the list and is released |
| CartesianProduct.Cartesian.SetDefaultParameter | librave/transform/cartesian.c:477-500 | NULL fails and changes nothing; otherwise the name is set and the current parameter becomes the entry under it, or none |
| CartesianProduct.Cartesian.AddParameter | librave/transform/cartesian.c:754-789 | succeeds exactly for a parameter with a quantity that the sizing rules admit; then it is stored under its quantity, and it becomes the current parameter exactly when the quantity is the default name; a failure leaves table and counts unchanged |
| CartesianProduct.Cartesian.AdoptGridAndStore | librave/transform/cartesian.c:764-783 | on an empty table, the grid takes the parameter's size and the parameter is stored |
| CartesianProduct.Cartesian.AdoptGrid | librave/transform/cartesian.c:764-767 | the grid takes the given size and nothing held changes |
| CartesianProduct.Cartesian.StoreParameter | librave/transform/cartesian.c:775-783 | the put, then the current parameter when the quantity is the default name |
| CartesianProduct.Cartesian.StoreCurrent | librave/transform/cartesian.c:775-783 | the put, and the parameter becomes the current one |
| CartesianProduct.Cartesian.GetParameter | librave/transform/cartesian.c:791-798 | the entry under the name, with one reference handed to the caller, or none |
| CartesianProduct.Cartesian.RemoveParameter | librave/transform/cartesian.c:807-812 | the entry leaves the table and is released; the current parameter stays as it is |
| CartesianProduct.Cartesian.GetParameterNames | librave/transform/cartesian.c:820-824 | every quantity in the table, each once |
| CartesianProduct.Cartesian.CreateParameter | librave/transform/cartesian.c:826-840 | a new parameter exactly when the grid is non-empty, a quantity is given and the type is defined; it is then stored and the caller holds one extra reference; otherwise nothing changes |
| CartesianProduct.Cartesian.ProbeParameter | librave/transform/cartesian.c:637-643 | the parameter is fetched, asked and released: counts unchanged |
| CartesianProduct.Cartesian.ProbeParameters | librave/transform/cartesian.c:636-644 | true exactly when every listed parameter is transformable; counts unchanged |
| CartesianProduct.Cartesian.ProbeListed | librave/transform/cartesian.c:620-648 | takes a reference to each listed value, probes them only when the earlier checks passed, then gives the references back: true exactly when those checks passed and every listed parameter is ready, with the counts unchanged |
| CartesianProduct.Cartesian.IsTransformable | librave/transform/cartesian.c:617-649 | true exactly when there is a parameter, both scales are positive, a projection is set and every parameter is transformable; every reference taken is released again |
| CartesianProduct.Cartesian.AddAttribute | librave/transform/cartesian.c:651-681 | succeeds exactly for a named attribute with an accepted name, and stores it; otherwise attributes and counts are unchanged |
| CartesianProduct.Cartesian.GetAttribute | librave/transform/cartesian.c:683-691 | the attribute under the name, with one reference handed to the caller; none for NULL or an unknown name |
| CartesianProduct.Cartesian.GetAttributeNames | librave/transform/cartesian.c:693-697 | every attribute name in the table, each once |
| CartesianProduct.Cartesian.AddQualityField | librave/transform/cartesian.c:722-726 | the field is retained and appended |
| CartesianProduct.Cartesian.GetQualityField | librave/transform/cartesian.c:728-732 | the field at the index, with one reference handed to the caller; none out of range |
| CartesianProduct.Cartesian.RemoveQualityField | librave/transform/cartesian.c:740-746 | the field at the index leaves the list and is released; out of range nothing changes |
| CartesianProduct.Cartesian.SetProjection | librave/transform/cartesian.c:508-515 | the old projection is released and the new one retained |
| CartesianProduct.Cartesian.ReplaceProjection | librave/transform/cartesian.c:508-515 | the same, on the counted references alone |
| CartesianProduct.Cartesian.GetProjection | librave/transform/cartesian.c:517-524 | the projection, with one reference handed to the caller |
| CartesianProduct.Cartesian.Init | librave/transform/cartesian.c:571-587 | scales, sizes, extent and projection are taken from the area; the counts stay balanced |
| CartesianProduct.Cartesian.InitGeometry | librave/transform/cartesian.c:578-585 | the scales, sizes and extent come from the area; nothing else changes |
| CartesianProduct.Cartesian.ProjectionFromArea | librave/transform/cartesian.c:582-586 | the area's projection replaces the product's; the counts stay balanced |
| CartesianProduct.Cartesian.Copy | librave/transform/cartesian.c:126-193 | scalars, date/times, source and default name are copied; tables and list are fresh clones with the same keys and length; the current parameter is re-resolved from the default name; as the corrected clone of the Findings row, the counted parameters, attributes, quality fields, current parameter and projection grow by exactly the clone's holdings |
| CartesianProduct.Cartesian.Destroy | librave/transform/cartesian.c:199-214 | every reference the product held is released, and it holds nothing afterwards |
| CartesianProduct.Cartesian.ReleaseHeld | librave/transform/cartesian.c:203-211 | the counts drop by exactly the references held through the given parts |
| RaveObject.MapRefsRemove | librave/transform/cartesian.c:810-811 | removing a key gives up exactly the reference stored under it |
| RaveObject.MapRefsPut | librave/transform/cartesian.c:775 | storing under a key replaces the reference held under it by one to the new value |
| RaveObject.MapRefsReplace | librave/transform/cartesian.c:775 | storing gives up the old entry's reference and adds one to the new value |
| RaveObject.MapRefsValues | librave/transform/cartesian.c:626 | a table holds a reference to an object exactly when the object is one of its values |
| RaveObject.ListRefsItems | librave/transform/cartesian.c:722-746 | a list holds one reference per item |
| RaveObject.TableValues | librave/transform/cartesian.c:626 | the values of a table, one per key |
| RaveObject.TableKeys | librave/transform/cartesian.c:820-824 | the keys of a table, each once |
| RaveObject.Runtime.New | modules/pyradardefinition.c:86 | a fresh object with one reference |
| RaveObject.Runtime.Retain | modules/pyradardefinition.c:70 | one more reference to a live object |
| RaveObject.Runtime.Release | modules/pyradardefinition.c:112 | one reference fewer |
| RaveObject.Runtime.TablePut | librave/transform/cartesian.c:775 | the owning put: the new value is retained and the replaced entry released |
| RaveObject.Runtime.TableRemove | librave/transform/cartesian.c:810-811 | the owning remove followed by a release |
| RaveObject.Runtime.CloneTable | librave/transform/cartesian.c:153-155 | a fresh object per entry, under the same key |
| RaveObject.Runtime.CloneList | librave/transform/cartesian.c:154 | a fresh object per item, in order |
| PyRadarDefinition.BindKeepsInverse | modules/pyradardefinition.c:103-104 | binding an unbound object to a fresh wrapper keeps binding slots and wrapped objects inverse |
| PyRadarDefinition.UnbindKeepsInverse | modules/pyradardefinition.c:127 | unbinding a wrapper and its object keeps them inverse |
| PyRadarDefinition.NewStep | modules/pyradardefinition.c:79-114 | when New returns no wrapper, nothing changes but the fresh-object counter |
| PyRadarDefinition.DeallocStep | modules/pyradardefinition.c:120-130 | the wrapper is gone; the Python references are unchanged |
| PyRadarDefinition.GetNativeStep | modules/pyradardefinition.c:66-71 | the caller gets one more reference to the wrapped object; nothing else changes |
| PyRadarDefinition.NewKeepsInv | modules/pyradardefinition.c:79-114 | New keeps the invariant |
| PyRadarDefinition.BindKeepsInv | modules/pyradardefinition.c:99-104 | binding an unbound live object to the next wrapper keeps the invariant |
| PyRadarDefinition.DeallocKeepsInv | modules/pyradardefinition.c:120-130 | deallocating a wrapper nobody refers to keeps the invariant |
| PyRadarDefinition.NewCreates | modules/pyradardefinition.c:85-112 | New(NULL) gives a wrapper exactly when both allocations succeed; the new object's only reference is the wrapper's, and it is bound to that wrapper |
| PyRadarDefinition.NewBound | modules/pyradardefinition.c:92-96 | New on a bound object returns its wrapper with one more Python reference; the native counts do not move |
| PyRadarDefinition.NewUnbound | modules/pyradardefinition.c:92-112 | New on an unbound object gives a wrapper exactly when its allocation succeeds; the object gains one reference and is bound to the fresh wrapper |
| PyRadarDefinition.NewTwiceSameWrapper | modules/pyradardefinition.c:93-96 | two New calls on the same object return the identical wrapper |
| PyRadarDefinition.DeallocUnbinds | modules/pyradardefinition.c:127-128 | deallocation unbinds the object and gives back exactly the wrapper's one reference |
| PyRadarDefinition.DeallocUndoesNew | modules/pyradardefinition.c:79-130 | wrapping an unbound object, dropping the Python reference and deallocating gives back the original state, but for the used wrapper identity |
| PyRadarDefinition.UnbindAfterBind | modules/pyradardefinition.c:103-127 | taking out a pair just put in gives back both maps |
| PyRadarDefinition.Interpreter.New | modules/pyradardefinition.c:79-114 | the new state and the wrapper are those of the New step, and the invariant holds |
| PyRadarDefinition.Interpreter.NewNative | modules/pyradardefinition.c:85-112 | New(NULL), as the New step says |
| PyRadarDefinition.Interpreter.NewFrom | modules/pyradardefinition.c:91-112 | New(p), as the New step says |
| PyRadarDefinition.Interpreter.Wrap | modules/pyradardefinition.c:100-104 | the next wrapper is created, holds one reference to the object and is bound to it |
| PyRadarDefinition.Interpreter.Dealloc | modules/pyradardefinition.c:120-130 | nothing for NULL; otherwise the state of the dealloc step, and the invariant holds |
| PyRadarDefinition.Interpreter.DeallocLive | modules/pyradardefinition.c:126-129 | unbind, release, delete: the state of the dealloc step |
| PyRadarDefinition.Interpreter.GetNative | modules/pyradardefinition.c:66-71 | the wrapped object, with one more reference for the caller |

## Left out

- rave_object.c, the hash table, the object list and rave_list.c are not part of this model. Module `RaveObject` states what the callers rely on.
- RAVE_OBJECT_UNBIND is taken to clear the slot only when the slot names the wrapper being unbound (`PyRadarDefinition.DeallocStep`).
- Allocation failures are modelled only in `PyRadarDefinition_New`, as the parameters `nativeOk` and `wrapperOk`. Everywhere else, allocation, `strdup` and the containers' put and add are taken to succeed.
- CartesianProduct.Cartesian.Copy: models the corrected clone, not the source as written. RAVE_OBJECT_CLONE runs the plain constructor before the copy constructor, so the date/times, the attribute table, the quality-field list, the parameter table (cartesian.c:98-103) and the "DBZH" string (cartesian.c:97) are allocated and then overwritten without a release (cartesian.c:141-155). That leak is the Findings row, modelled by CartesianProduct.CloneHoldingsAsWritten. The balance Copy states covers only the counted references: the parameters, attributes, quality fields, current parameter and projection. The date/times and the containers themselves are values here, and the leaked string is not modelled. The contents of the clones are not modelled either (RAVE_OBJECT_CLONE is part of rave_object.c), and neither are the copy constructor's failure paths.
- CartesianProduct.Cartesian.Copy: the source string and the default name are set before the clones are made. This ordering does not change the result.
- CartesianProduct.Cartesian.Init: takes the projection before the scalars. This ordering does not change the result.
- RaveAttributeHelp_extractGroupAndName is not part of this model. `CartesianProduct.SplitGroup` takes it to split a name at its first '/' and to fail on a name without one.
- CartesianProduct.Cartesian.SetTime (and the other date/time setters): whether RaveDateTime accepts a value is a parameter. Date/time objects are values.
- Floating-point geometry and averaging are not modelled: getLocationX/Y, getIndexX/Y, getMean.
- The value access that CartesianParam performs (setValue, getValue, nodata, undetect) is a function parameter. Only the branch without a current parameter is decided here.
- Trivial getters are the fields themselves and have no member of their own: getTime, getDate, getSource, getObjectType, the sizes, scales, extent, getProduct, getDefaultParameter.
- Other cartesian members are not modelled:
  - hasParameter, getParameterCount, hasAttribute and getNumberOfQualityFields are table or list membership and size;
  - getAttributeValues returns a clone of the attribute values;
  - getQualityFields returns the product's own list with one more reference; see the next line;
  - getProjectionString delegates to the projection, which is not part of this model.
- CartesianProduct.Cartesian.Destroy: the quality-field list is modelled as a sequence owned by the product alone. `Held()` and `Destroy` count each field as the product's own reference. The list object that getQualityFields shares with its caller (cartesian.c:748-752) is not modelled. So the model does not capture that caller adding or removing the product's fields through it, or the fields outliving the product while the caller still holds the list: the destructor releases only the list (cartesian.c:209).
- RaveHlhdf.AddAttributesFrom and RaveHlhdf.NodeList.AddAttributes: use the object name as an argument ("%s"), which is the evidently intended behaviour. The written use of the name as a format is modelled by `RaveHlhdf.AddAttributesAsWrittenFrom` (see Findings).
- The printf-style formatting of the exported functions' name arguments is not modelled: their callers pass the formatted name. The byte reinterpretation of stored values (memcpy by C type size) is also not modelled: nodes carry symbolic values.
- HLHDF node construction and HLHDF's own failures are taken to succeed.
- RaveList_removeObject and RaveList_find have no documented contract and are not modelled.
- RaveListModel.RaveList.Sort: requires a comparator under which of any two items one may precede the other, which is what qsort needs from its caller.
- PyRadarDefinition.Interpreter.Dealloc: Python calls the deallocator when a wrapper's last reference goes. The model states that as the precondition that nobody refers to the wrapper.
- The Python attribute glue (getattr, setattr, module init) and modules/pyarea.c are not modelled.
- CartesianProduct.Cartesian.GetParameter and CartesianProduct.Cartesian.RemoveParameter: the name is a string, never NULL. The source hands a NULL name on to the hash table, which is not part of this model, so that case is not modelled.
- Atomic or concurrent reference counting is not modelled.

## Findings

| source | as written | input that shows it | evidently intended | confidence | as-written member | corrected member |
|---|---|---|---|---|---|---|
| librave/transform/rave_hlhdf_utilities.c:350-352 | `sprintf` builds "<name>/<attrname>" into a 1024-character buffer without a length check | an object name of 1000 characters and the attribute name "how/" followed by 100 characters give a 1105-character name | the bounded formatting used for every other name (n >= 1024 fails), so the add fails | high for the overflow, not executed | RaveHlhdf.AddAttributeAsWritten, RaveHlhdf.AddAttributeOverflows | RaveHlhdf.AddAttributeOutcome, RaveHlhdf.AddedNamesFit |
| librave/transform/cartesian.c:141-155 | the copy constructor sets datetime, startdatetime, enddatetime, attrs, qualityfields, parameters and defaultParameter to NULL or to clones, but the clone has already run the plain constructor, which allocated all of them (lines 97-103); none is released | cloning any product: after the clone is destroyed, the six objects the constructor made keep one reference each and the "DBZH" string stays allocated | release the constructor's objects before overwriting them (or skip the plain constructor for a clone), so destroying the clone brings the counts back to where they were | medium: the constructor-then-copy order is in rave_object.c, which is not part of this model; not executed | CartesianProduct.CloneHoldingsAsWritten, CartesianProduct.OrphansOutliveClone | CartesianProduct.CloneHoldings, CartesianProduct.Cartesian.Copy |
| librave/transform/rave_hlhdf_utilities.c:453 | addAttributes passes its object name to addAttribute as the printf format, while it creates the groups with "%s/how" and the name as an argument (lines 408-410, 427-439) | the object name "a%%b" with the attribute "how/x": the group is "a%%b/how", the attribute node "a%b/how/x"; a name such as "x%s" reads an argument that was never passed | the name passed as an argument, "%s", so every attribute lies under its object | medium, not executed | RaveHlhdf.AddAttributesAsWrittenFrom, RaveHlhdf.AttributeLeavesItsObject | RaveHlhdf.AddAttributesFrom, RaveHlhdf.AddedNodesUnderName |
