# Mind-map hierarchy and its data pipeline, in Dafny

This project models the sequential core of a small mind-map application. It
has two parts:

- **The mind-map component** (`src/components/MindMap.js`). A D3 hierarchy is
  drawn as a tree. Clicking a node swaps its `children` and `_children` arrays,
  which expands or collapses it. Every redraw stamps each visible node with a
  key from a counter, joins the drawn nodes and links against the new visible
  set by that key (enter, update, exit), and remembers each node's position.
  Go-back looks for the parent of the current root record.
- **The Python scripts that produce the tree's data.**
  `Create_data_files/create_data_json.py` parses the linkage cells of the
  process sheet into a main-process map and cleans the matrix sheet.
  `process_data.py` joins the lookup tables into the three-level
  name/children/attributes tree the component draws.
  `Create_data_files/enhanced_process_baukasten_mapper.py` builds the
  subprocess hierarchy, cleans text, extracts keywords and clamps the adaptive
  threshold. It also merges subprocess matches into their main process and
  writes the filled matrix.

Files:

| file | contents |
|---|---|
| `common.dfy` | `Option`, `Result`, duplicate-free sequences, `list(set(..))`, and an insertion-ordered dict (`OrderedMap`, `Put`) |
| `pytext.dfy` | the Python string built-ins the scripts call: `isspace`, `strip`, `lower`, `split()`, `int(text)`, `str(int)` |
| `pyvalue.dfy` | a spreadsheet cell or JSON scalar (`Value`) with `str()`, `int()`, truthiness and `pd.isna` |
| `mindmap_tree.dfy` | the hierarchy as an arena of child-array pairs: the toggle, the visible set, `findParent`, the keyed join |
| `mindmap_view.dfy` | class `MindMap`: keys, positions, the key counter, drawn keys, current root and selection, plus the click, update, effect and go-back methods |
| `create_data_json.dfy` | `expand_range`, `parse_subprocess_cell`, `build_hauptprozess_json`, the cleaning in `matrix_to_json` |
| `process_data.dfy` | the two lookup tables and the hierarchy-building loop |
| `baukasten_mapper.dfy` | linkage parsing, `preprocess_text`, `extract_keywords`, `get_adaptive_threshold`, the subprocess union, `create_enhanced_filled_matrix` |

Each loop in the source is a Dafny method, with one exception: the
`for (const child of node.children)` scan inside `findParent`, which returns
from the middle of the loop and recurses into each child, is the recursive
function `FindParentAmong`. A method's `ensures` ties its result to a
specification function, and lemmas about that function state what the source
promises. A node's identity in the component (`d.data`) is its index in the
arena. Children have higher indices than their parents, so every walk down
the tree terminates. Key 0 stands for "no key yet", since `++i` never yields 0.

## Model

| member | source | states |
|---|---|---|
| `MindMapTree.Flip` | src/components/MindMap.js:112-118 | An expanded node ends with `children` null and `_children` holding its old children. Any other node gets `_children` back as `children` and `_children` is cleared. The children the node owns do not change, and at most one array is set. |
| `MindMapTree.FlipTwice` | src/components/MindMap.js:112-118 | Toggling a node twice restores its original pair of arrays. |
| `MindMapTree.FlipLeaf` | src/components/MindMap.js:112-118 | Toggling a leaf, which has neither array, leaves it with no visible children. |
| `MindMapTree.Visible` | src/components/MindMap.js:46-47 | The visible list starts with the node it is taken from, and all entries lie inside the arena at or below that node. |
| `MindMapTree.VisibleUnder` | src/components/MindMap.js:46-47 | A node is visible under a list of children exactly when it is visible from one of them. |
| `MindMapTree.VisibleClosed` | src/components/MindMap.js:46-47 | Every child in the `children` array of a visible node is visible. |
| `MindMapTree.VisibleSupported` | src/components/MindMap.js:46-47 | Every visible node other than the root appears in the `children` array of some visible node. |
| `MindMapTree.CollapsedChildHidden` | src/components/MindMap.js:112-114 | The children of a collapsed node (its `children` null) are never visible, given that nobody else owns them. |
| `MindMapTree.ToggleVisibility` | src/components/MindMap.js:112-118 | The swap keeps the arena well formed and every node's owned children. Collapsing hides all of the node's children. Expanding a visible node shows all of them. |
| `MindMapTree.FindParent` | src/components/MindMap.js:132-142 | A result is a node visible from the start whose `children` contain the target. No result means no visible node has the target in its `children`, so a target under a collapsed node is not found. |
| `MindMapTree.FindParentAmong` | src/components/MindMap.js:134-141 | A result is the node itself only when the target is one of the scanned children; any other result is a visible node, under one of the children, whose `children` hold the target. No result means the target is not among the children and no node visible under them lists it. |
| `MindMapTree.FindParentAmongFirst` | src/components/MindMap.js:134-141 | When the children before position j neither are the target nor lead to its parent, the scan returns `node` if child j is the target, and otherwise whatever the search below child j finds. |
| `MindMapTree.FindParentAmongSkip` | src/components/MindMap.js:134-141 | Children that neither are the target nor lead to its parent are passed over: the scan gives the same result as the scan of the remaining children. |
| `MindMapTree.FindParentUnique` | src/components/MindMap.js:132-142 | When each node has one owner, a visible node whose `children` hold the target is exactly what `findParent` returns from the root. |
| `MindMapTree.RootHasNoParent` | src/components/MindMap.js:144-149 | From the root, the root's parent is not found. |
| `MindMapTree.Join` | src/components/MindMap.js:52-76 | Enter, update and exit are pairwise disjoint. Enter and update together make up the new keys. Update and exit together make up the old keys. |
| `MindMapTree.JoinUnique` | src/components/MindMap.js:52-76 | Any three disjoint groups covering the new keys (enter, update) and the old keys (update, exit) are exactly the join. |
| `MindMapTree.LinkJoinFollowsNodes` | src/components/MindMap.js:81-99 | Set algebra behind the link join: removing one key from both key sets removes it from each of enter, update and exit. |
| `MindMapTree.KeysOf` | src/components/MindMap.js:53 | The key set holds the key of every listed node and nothing else. |
| `MindMapView.KeyedStep` | src/components/MindMap.js:53 | Keying one more node keeps every freshness, stability and distinctness fact about the keys. |
| `MindMapView.KeyNodes` | src/components/MindMap.js:53 | A node with a key keeps it, and every listed node ends with a non-zero key. Unlisted nodes are untouched. Fresh keys lie above the old counter, up to the new one, and are distinct. All keys stay distinct when every old key is below the counter. |
| `MindMapView.LinkKeysAreNodeKeys` | src/components/MindMap.js:81-83 | With distinct keys, the keys of every visible node but the root are the node keys without the root's key. |
| `MindMapView.LinkJoin` | src/components/MindMap.js:81-99 | With distinct keys, the link keys are the node keys minus the root's key. When that held before the update too, the link join is the node join with the root's key removed from each group. |
| `MindMapView.MindMap.constructor` | src/components/MindMap.js:39-43 | Builds the hierarchy with no `_children`, no keys and the root at (height / 2, 0) = (375, 0). There is a current root exactly when the record has a name. |
| `MindMapView.MindMap.VisibleNodes` | src/components/MindMap.js:46-47 | The visible nodes start with the root. |
| `MindMapView.MindMap.AssignKeys` | src/components/MindMap.js:53 | The key function `d.id \|\| (d.id = ++i)` over the visible nodes, with the guarantees of `KeyNodes`. |
| `MindMapView.MindMap.PlaceNodes` | src/components/MindMap.js:46-49 | Each visible node takes the layout's x and y = depth × 180. Hidden nodes keep their position. |
| `MindMapView.MindMap.RememberPositions` | src/components/MindMap.js:101-104 | Each visible node ends with x0 = x and y0 = y. Other nodes keep x0, y0. |
| `MindMapView.MindMap.Update` | src/components/MindMap.js:45-105 | The drawn node keys become the visible keys, and the link keys become the visible keys minus the root's; with distinct keys that is `nodeKeys - {root key}`, and the link join is then the node join without the root key. The node and link transitions are the joins of old and new keys. Entering shapes start at the source's old (x0, y0) and exiting ones go to its new (x, y). Keys follow `Keyed`, positions follow `Placed` and `Remembered`. |
| `MindMapView.MindMap.Toggle` | src/components/MindMap.js:112-118 | Only the clicked node's pair changes, and it changes as `Flip` says. Collapsing hides all of its children. Expanding a visible node shows them. |
| `MindMapView.MindMap.HandleClick` | src/components/MindMap.js:107-121 | A click always selects the node and never changes the current root. Clicking the current root changes nothing else: hierarchy, keys, counter, positions and key sets stay. Clicking any other node toggles it as `Flip` says and redraws from it: keys follow `Keyed`, positions `Placed` and `Remembered`, the key sets become the visible keys (without the root for links), the transitions are the joins, and entering shapes start at the clicked node's old (x0, y0). Collapsing hides its children; expanding a visible node shows them. |
| `MindMapView.MindMap.RunEffect` | src/components/MindMap.js:21-127 | Without a current root nothing changes: keys, counter, positions and key sets stay. Otherwise the counter restarts at 0 (`Keyed` from counter 0), the tree is redrawn from the root with `Placed` and `Remembered`, the key sets become the visible keys, the transitions are the joins, and every visible node has a key. |
| `MindMapView.MindMap.GoBack` | src/components/MindMap.js:130-150 | Without a current root nothing changes. Otherwise the current root moves to the parent `findParent` finds, and stays if none is found. Starting from the root record it stays. |
| `Common.Distinct` | Create_data_files/enhanced_process_baukasten_mapper.py:188 | `list(set(xs))` has no duplicates and exactly the elements of `xs`. |
| `PyText.Strip` | Create_data_files/create_data_json.py:74 | `strip()` returns a string that neither starts nor ends with whitespace and is no longer than its input. |
| `PyText.StripIdempotent` | Create_data_files/create_data_json.py:74 | Stripping twice is stripping once. |
| `PyText.ParseIntToString` | Create_data_files/create_data_json.py:77 | `int(str(i)) == i`. |
| `PyText.ParseInt` | Create_data_files/create_data_json.py:76 | `int(text)` accepts only text whose stripped form is non-empty and ends in a digit. |
| `PyText.ParseIntShape` | Create_data_files/create_data_json.py:76 | Text `int()` accepts is, once stripped, digits with at most a leading sign, and a negative result comes from a leading '-'. |
| `PyText.ParseIntIgnoresSpace` | Create_data_files/enhanced_process_baukasten_mapper.py:108-109 | Surrounding whitespace does not change what `int()` gives, so `int(s.strip())` equals `int(s)`. |
| `PyText.Lower` | Create_data_files/create_data_json.py:120 | `str.lower()` keeps the length and lowers each character on its own. |
| `PyValue.PyStr` | process_data.py:217 | `str()` of a string is the string, of an int its decimal text, of a float its printed text. |
| `PyValue.PyStrIntRoundTrip` | process_data.py:201 | For an int, `int(str(n))` gives n back, both as text and through a string cell. |
| `PyValue.PyInt` | process_data.py:201 | `int()` of a cell fails exactly on a missing value or text it cannot parse. An int is kept, text is parsed, and a float is truncated toward zero (an integral float gives its value). |
| `PyValue.FalsyValues` | process_data.py:213 | Of the missing values only NaN is truthy, so a None cell is skipped and a NaN cell is kept. A falsy cell that `int()` accepts is 0. |
| `PyText.Words` | Create_data_files/enhanced_process_baukasten_mapper.py:169 | `split()` yields non-empty words without whitespace. |
| `PyText.WordsConcat` | Create_data_files/enhanced_process_baukasten_mapper.py:169 | The words written one after another are exactly the non-whitespace characters of the text, in order: `split()` drops whitespace and nothing else. |
| `PyText.WordsSpaceCons` | Create_data_files/enhanced_process_baukasten_mapper.py:169 | A whitespace character in front of a text changes none of its words. |
| `PyText.WordsWordCons` | Create_data_files/enhanced_process_baukasten_mapper.py:169 | A non-whitespace character in front either forms a word of its own (when whitespace or the end follows) or joins the first word (when a word follows directly). |
| `PyText.WordsSnocSpace` | Create_data_files/enhanced_process_baukasten_mapper.py:169 | A whitespace character at the end changes no word. |
| `PyText.WordsStrip` | Create_data_files/enhanced_process_baukasten_mapper.py:169 | `strip()` changes no word: `s.strip().split() == s.split()`. |
| `CreateDataJson.IndexOf` | Create_data_files/create_data_json.py:76 | The first position of the character, or none exactly when it does not occur. |
| `CreateDataJson.RangeStrings` | Create_data_files/create_data_json.py:77 | The decimal strings of lo, lo+1, …, hi in order, so the length is max(0, hi−lo+1). |
| `CreateDataJson.RangeStringsClean` | Create_data_files/create_data_json.py:77 | Every string of the range is stripped and made only of digits and '-'. |
| `CreateDataJson.ExpandRange` | Create_data_files/create_data_json.py:69-78 | A token without '-' comes back as the one-element list holding the stripped token. With a '-', it raises ValueError exactly when `int()` rejects a side of the first '-', and otherwise gives the range between the two sides. |
| `CreateDataJson.ExpandRangeClean` | Create_data_files/create_data_json.py:74-78 | Every element returned is stripped and made of the token's characters, digits and '-'. |
| `CreateDataJson.RangeStringsParse` | Create_data_files/create_data_json.py:77 | Element j of the range parses back to lo + j. |
| `CreateDataJson.ExpandRangeRoundTrip` | Create_data_files/create_data_json.py:74-77 | "lo-hi" expands to the range from lo to hi. |
| `CreateDataJson.ExpandRangeBackwards` | Create_data_files/create_data_json.py:77 | With hi below lo the result is empty and no error is raised. |
| `CreateDataJson.ExpandRangeSecondDash` | Create_data_files/create_data_json.py:76 | Only the first '-' splits, so "1-2-3" raises a ValueError. |
| `CreateDataJson.SplitCellPieces` | Create_data_files/create_data_json.py:91 | No piece of `re.split(r"[,\n;]", s)` holds a separator. |
| `CreateDataJson.SplitJoin` | Create_data_files/create_data_json.py:91 | Splitting undoes joining separator-free pieces with `,`, `;` or newline. |
| `CreateDataJson.SplitCell` | Create_data_files/create_data_json.py:91 | `re.split` always gives at least one piece. |
| `CreateDataJson.ExpandAll` | Create_data_files/create_data_json.py:91-92 | No parts give the empty list. |
| `CreateDataJson.ExpandAllClean` | Create_data_files/create_data_json.py:91-92 | Every id the parts expand to is stripped and made of digits, '-' and the parts' own characters. |
| `CreateDataJson.ExpandAllPrefixFails` | Create_data_files/create_data_json.py:92 | The first part that raises ends the cell with that error. |
| `CreateDataJson.DropEmpty` | Create_data_files/create_data_json.py:93 | No element is empty, and exactly the non-empty inputs remain. |
| `CreateDataJson.ParseSubprocessCell` | Create_data_files/create_data_json.py:81-93 | A NaN or blank cell gives []. Otherwise the result is the in-order concatenation of `expand_range` over the pieces, empty strings removed, or the first ValueError. |
| `CreateDataJson.SubprocessIds` | Create_data_files/create_data_json.py:81-93 | A NaN or blank cell gives []. Every id of a successful parse is non-empty. |
| `CreateDataJson.SubprocessIdsMeaning` | Create_data_files/create_data_json.py:81-93 | A cell raises exactly when it is neither NaN nor blank and one of its pieces raises in `expand_range`. Otherwise an id is in the result exactly when it is a non-empty id of the expanded pieces. |
| `CreateDataJson.ExpandParts` | Create_data_files/create_data_json.py:91-92 | The loop computes the concatenation of the expansions, or the first error. |
| `CreateDataJson.KeepNonEmpty` | Create_data_files/create_data_json.py:93 | The filter loop keeps exactly the non-empty ids in order. |
| `CreateDataJson.SubprocessIdsClean` | Create_data_files/create_data_json.py:81-93 | Every id a cell yields is non-empty, stripped and free of separators. |
| `CreateDataJson.ParseJoinedNumbers` | Create_data_files/create_data_json.py:81-93 | A cell listing plain numbers between commas parses to those numbers, in order. |
| `CreateDataJson.StripZeroDecimal` | Create_data_files/create_data_json.py:117 | Text without '.' is left unchanged, and nothing gets longer. |
| `CreateDataJson.NormalizeId` | Create_data_files/create_data_json.py:117 | `str(x)` with `\.0+$` removed is never longer than `str(x)`, and is `str(x)` itself when that has no '.'. |
| `CreateDataJson.StripZeroDecimalRemoves` | Create_data_files/create_data_json.py:117 | A trailing '.' plus one or more '0's is removed, also before one final newline. |
| `CreateDataJson.StripZeroDecimalKeeps` | Create_data_files/create_data_json.py:117 | Text not ending in '0' (before an optional final newline) is unchanged. |
| `CreateDataJson.NormalizeIntegralFloat` | Create_data_files/create_data_json.py:117 | An integral float id such as "12.0" and the int 12 both become "12". |
| `CreateDataJson.HauptprozessKind` | Create_data_files/create_data_json.py:120 | Only a string of twelve characters lowers to "hauptprozess", and "Hauptprozess" itself does. |
| `CreateDataJson.HauptprozessMap` | Create_data_files/create_data_json.py:97-127 | The result is a well-formed insertion-ordered dict. |
| `CreateDataJson.BuildHauptprozessJson` | Create_data_files/create_data_json.py:97-127 | The row loop computes `HauptprozessMap`. |
| `CreateDataJson.HauptprozessFailure` | Create_data_files/create_data_json.py:123-126 | The build fails exactly when some Hauptprozess row's cell raises. |
| `CreateDataJson.HauptprozessKeysCover` | Create_data_files/create_data_json.py:120-126 | Every row whose lower-cased Prozessart is "hauptprozess" has its normalized id as a key. |
| `CreateDataJson.HauptprozessKeysWritten` | Create_data_files/create_data_json.py:120-126 | Every key is the normalized id of such a row, so other rows add no key. |
| `CreateDataJson.HauptprozessLastWins` | Create_data_files/create_data_json.py:123-126 | Each key holds the parsed cell of the last row with that id. A row with no links maps to []. |
| `CreateDataJson.Present` | Create_data_files/create_data_json.py:17 | The kept values contain no NaN or None. |
| `CreateDataJson.CleanValue` | Create_data_files/create_data_json.py:18-21 | Only floats change. An integral float becomes the int with the same value, a non-integral float stays, and a value is missing after cleaning exactly when it was missing before. |
| `CreateDataJson.PresentSound` | Create_data_files/create_data_json.py:16-17 | Exactly the missing values are dropped, and every other value is kept. |
| `CreateDataJson.CleanedSound` | Create_data_files/create_data_json.py:14-23 | Cleaning drops only the missing values. No missing value or integral float remains, and every present value appears in cleaned form. |
| `CreateDataJson.CleanedIdempotent` | Create_data_files/create_data_json.py:14-23 | Cleaning a cleaned column changes nothing. |
| `CreateDataJson.CleanedAppend` | Create_data_files/create_data_json.py:16-22 | Cleaning works value by value and keeps order. |
| `CreateDataJson.CleanColumn` | Create_data_files/create_data_json.py:15-22 | The loop computes the cleaned column. |
| `CreateDataJson.DataColumn` | Create_data_files/create_data_json.py:9 | A column without the first data row (`iloc[1:, c]`). |
| `CreateDataJson.MatrixToJson` | Create_data_files/create_data_json.py:6-23 | A sheet without columns gives {}. Otherwise the object holds every column after the first, cleaned. |
| `CreateDataJson.AddColumns` | Create_data_files/create_data_json.py:14-23 | The column loop computes that object. |
| `CreateDataJson.AddColumn` | Create_data_files/create_data_json.py:15-23 | One pass of the loop stores the next cleaned column under its name. |
| `CreateDataJson.ColumnsJsonKeys` | Create_data_files/create_data_json.py:14-23 | With distinct names, the keys are the names after the first, in sheet order. |
| `CreateDataJson.ColumnsJsonEntries` | Create_data_files/create_data_json.py:14-23 | With distinct names, each name holds its own column. |
| `CreateDataJson.MatrixJsonColumns` | Create_data_files/create_data_json.py:14-23 | Each column name after the first holds that column's cleaned values, in sheet order. |
| `ProcessData.Field` | process_data.py:202 | `rec[key]` succeeds exactly when the key is present, and raises KeyError otherwise. |
| `ProcessData.Fields` | process_data.py:202-212 | The attribute object has the given keys in order with the record's values. It fails exactly when a key is missing. |
| `ProcessData.DefaultInfo` | process_data.py:240-252 | The fallback has the given name and "" under every attribute. |
| `ProcessData.BlankAttributes` | process_data.py:240-252 | The fallback attributes have the given names, in order, each holding "". |
| `ProcessData.ProcessPair` | process_data.py:201-213 | A record's pair succeeds exactly when `int(Prozessnummer)`, the name and all nine attributes can be read. The key is `str(int(Prozessnummer))` and the value holds the name and those attributes. |
| `ProcessData.ComponentPair` | process_data.py:217-232 | A record's pair succeeds exactly when the name and all twelve attributes can be read. The key is `str(Lfd. Nummer)` and the value holds the name and those attributes. |
| `ProcessData.ProcessPairs` | process_data.py:200-214 | The comprehension succeeds exactly when every record has a Prozessnummer and every truthy one yields its pair. Every pair carries the nine process attributes. |
| `ProcessData.ProcessLookup` | process_data.py:200-214 | The table is well formed and every entry has the nine process attributes. Which keys and values it holds is stated by `ProcessLookupKeys` and `ProcessLookupLast`. |
| `ProcessData.ComponentPairs` | process_data.py:216-233 | The comprehension succeeds exactly when every record has a Lfd. Nummer and every truthy one yields its pair. Every pair carries the twelve component attributes. |
| `ProcessData.ComponentLookup` | process_data.py:216-233 | The table is well formed and every entry has the twelve component attributes. Which keys and values it holds is stated by `ComponentLookupKeys` and `ComponentLookupLast`. |
| `ProcessData.BuildTable` | process_data.py:200-214 | A dict comprehension gives a well-formed dict. |
| `ProcessData.TableKeys` | process_data.py:200-214 | The table's keys are exactly the pairs' keys. |
| `ProcessData.TableLastWins` | process_data.py:216-233 | A key holds the value of the last pair with that key. |
| `ProcessData.TableValues` | process_data.py:216-233 | Every stored value comes from a pair with its key. |
| `ProcessData.ProcessLookupFinds` | process_data.py:200-214 | A record with a truthy Prozessnummer is found under `str(int(Prozessnummer))`. |
| `ProcessData.ProcessLookupStep` | process_data.py:200-214 | One more record either writes its pair into the table (truthy Prozessnummer) or leaves the table as it was (falsy one). |
| `ProcessData.ProcessKeySource` | process_data.py:200-214 | Every key of the table is `str(int(Prozessnummer))` of some record with a truthy Prozessnummer. |
| `ProcessData.ProcessLookupKeys` | process_data.py:200-214 | A key is in the table exactly when some record with a truthy Prozessnummer has that key; records with a falsy one add nothing. |
| `ProcessData.ProcessLookupKeeps` | process_data.py:200-214 | A last record without key k leaves the entry under k as it was. |
| `ProcessData.ProcessLookupWrites` | process_data.py:200-214 | A last record with key k stores its own name and attributes under k. |
| `ProcessData.ProcessLookupLast` | process_data.py:200-214 | A key holds the name and attributes of the last kept record with that key. |
| `ProcessData.ComponentLookupStep` | process_data.py:216-233 | One more record either writes its pair into the table (truthy Lfd. Nummer) or leaves the table as it was (falsy one). |
| `ProcessData.ComponentKeySource` | process_data.py:216-233 | Every key of the table is `str(Lfd. Nummer)` of some record with a truthy Lfd. Nummer. |
| `ProcessData.ComponentLookupFinds` | process_data.py:216-233 | A record with a truthy Lfd. Nummer is found under `str(Lfd. Nummer)`. |
| `ProcessData.ComponentLookupKeys` | process_data.py:216-233 | A key is in the table exactly when some record with a truthy Lfd. Nummer has that key; records with a falsy one add nothing. |
| `ProcessData.ComponentLookupKeeps` | process_data.py:216-233 | A last record without key k leaves the entry under k as it was. |
| `ProcessData.ComponentLookupWrites` | process_data.py:216-233 | A last record with key k stores its own name and attributes under k. |
| `ProcessData.ComponentLookupLast` | process_data.py:216-233 | A key holds the name and attributes of the last kept record with that key. |
| `ProcessData.ProcessPairsCover` | process_data.py:213 | Every record with a truthy Prozessnummer contributes its pair, keyed `str(int(..))`. |
| `ProcessData.TruncateIntegral` | process_data.py:201 | `int()` of an integral float gives the integer back. |
| `ProcessData.FloatKeysAgree` | process_data.py:201 | A Prozessnummer read as a float gets the same key in the lookup table as in the Hauptprozess map. |
| `ProcessData.ComponentNode` | process_data.py:311-345 | A component node is named "{bb_id} - {name}" with the looked-up name, or "{bb_id} - Component {bb_id}" without a row. It carries the looked-up row's twelve attributes, or "" under each of the twelve names without one, and has no children key. |
| `ProcessData.ComponentNodes` | process_data.py:311-345 | One component node per building block, in order. |
| `ProcessData.ComponentNodesSnoc` | process_data.py:311-345 | One more building block adds its node at the end of the list. |
| `ProcessData.MakeComponentNode` | process_data.py:312-345 | The loop body builds exactly `ComponentNode` for the block. |
| `ProcessData.DefaultComponentName` | process_data.py:312-329 | The name of a component without a row is "{bb_id} - Component {bb_id}". |
| `ProcessData.PartialSolutionNode` | process_data.py:277-347 | Named "ID: {ps_id}". It carries the looked-up process row's nine attributes, or "" under each of the nine names for an unknown id, and one child per element of `enhanced_matrix.get(ps_id, [])`. |
| `ProcessData.ProcessChildren` | process_data.py:276-391 | One child per partial-solution id, in list order. A "Direct Components for {id}" child with empty attributes is added only when the list is empty and the matrix entry is non-empty. |
| `ProcessData.ProcessEntry` | process_data.py:239-393 | id = "Process_" + key and data.name = key. The title is the looked-up name, or "Process {id}" for an unknown id. The attributes are the looked-up row's, or "" under each of the nine names for an unknown id. The children are as above. |
| `ProcessData.Hierarchy` | process_data.py:239-393 | One entry per key of the Hauptprozess map, in iteration order. |
| `ProcessData.AppendComponents` | process_data.py:311-345 | The building-block loop computes `ComponentNodes`. |
| `ProcessData.BuildChildren` | process_data.py:276-391 | The partial-solution loop and the direct-components step compute `ProcessChildren`. |
| `ProcessData.BuildHierarchy` | process_data.py:236-393 | The main loop computes `Hierarchy`. |
| `ProcessData.BuildEntry` | process_data.py:239-393 | The loop body computes `ProcessEntry`. |
| `ProcessData.ProcessChildrenShape` | process_data.py:276-391 | Every level-2 child has a children list whose nodes have component attributes and no children key. |
| `ProcessData.HierarchyShape` | process_data.py:239-393 | Every entry has three levels: partial solutions, then leaf components. |
| `BaukastenMapper.FindFrom` | Create_data_files/enhanced_process_baukasten_mapper.py:107 | The first occurrence of the separator at or after a position, or none. |
| `BaukastenMapper.SplitOnFirst` | Create_data_files/enhanced_process_baukasten_mapper.py:107 | `split(sep)` cuts at the first occurrence of the separator. |
| `BaukastenMapper.SplitOn` | Create_data_files/enhanced_process_baukasten_mapper.py:107 | `split(sep)` gives at least one piece, no piece holds the separator, and text without the separator comes back as the only piece. |
| `BaukastenMapper.IntRange` | Create_data_files/enhanced_process_baukasten_mapper.py:110 | `list(range(lo, hi + 1))` has max(0, hi−lo+1) elements, and element k is lo + k. |
| `BaukastenMapper.ParseInts` | Create_data_files/enhanced_process_baukasten_mapper.py:118 | The list succeeds exactly when every item parses, and then holds the items' ints in order. |
| `BaukastenMapper.ParseNatStrings` | Create_data_files/enhanced_process_baukasten_mapper.py:118 | The decimal texts of a list of naturals parse back to that list. |
| `BaukastenMapper.ParseLinkage` | Create_data_files/enhanced_process_baukasten_mapper.py:105-122 | Only a text holding '-' or ',' names subprocesses. |
| `BaukastenMapper.HierarchyEntry` | Create_data_files/enhanced_process_baukasten_mapper.py:99-122 | A row adds an entry exactly when it is a "Hauptprozess" row with a non-NaN linkage that parses and an int-convertible number. The entry is that number with the parsed subprocesses. |
| `BaukastenMapper.ApplyWrites` | Create_data_files/enhanced_process_baukasten_mapper.py:111-119 | A series of dict writes keeps every key it started with. Each key holds either its old value or the value some write stored under it. |
| `BaukastenMapper.HierarchyOf` | Create_data_files/enhanced_process_baukasten_mapper.py:94-122 | Every entry of the hierarchy is the (number, subprocesses) pair of some row that adds an entry. |
| `BaukastenMapper.ApplyWritesKeys` | Create_data_files/enhanced_process_baukasten_mapper.py:111 | After a series of dict writes, a key is present exactly when it was before or some write sets it. |
| `BaukastenMapper.ApplyWritesLast` | Create_data_files/enhanced_process_baukasten_mapper.py:119 | A key holds the value of its last write. |
| `BaukastenMapper.HierarchyEntries` | Create_data_files/enhanced_process_baukasten_mapper.py:98-122 | A number is in the hierarchy exactly when some contributing row carries it. It holds the subprocesses of the last such row. |
| `BaukastenMapper.LinkageRange` | Create_data_files/enhanced_process_baukasten_mapper.py:105-111 | "a - b" yields a..b inclusive. |
| `BaukastenMapper.RangeTextParses` | Create_data_files/enhanced_process_baukasten_mapper.py:105-111 | Digit texts A and B that parse to lo and hi make "A - B" give lo..hi inclusive. |
| `BaukastenMapper.LinkageList` | Create_data_files/enhanced_process_baukasten_mapper.py:115-119 | A list of numbers between commas yields those numbers, in order. |
| `BaukastenMapper.LinkageRangeNeedsSpaces` | Create_data_files/enhanced_process_baukasten_mapper.py:105-114 | "a-b" without the spaces adds no entry. |
| `BaukastenMapper.LinkageSingleNumber` | Create_data_files/enhanced_process_baukasten_mapper.py:103-122 | A single number adds no entry. |
| `BaukastenMapper.LinkageBadUpperBound` | Create_data_files/enhanced_process_baukasten_mapper.py:105-114 | A non-integer side after " - " adds no entry. |
| `BaukastenMapper.LinkageMixedSkipped` | Create_data_files/enhanced_process_baukasten_mapper.py:105-115 | The '-' test runs before the ',' test, so "a - b, c" adds no entry. |
| `BaukastenMapper.MixedTextSkipped` | Create_data_files/enhanced_process_baukasten_mapper.py:105-114 | "A - B, C" of digit texts splits into two pieces whose second is no integer, so no list comes out. |
| `BaukastenMapper.NotIntText` | Create_data_files/enhanced_process_baukasten_mapper.py:118 | Text with a non-digit between digits is no integer. |
| `BaukastenMapper.Scrub` | Create_data_files/enhanced_process_baukasten_mapper.py:150 | Every character that is neither a word character nor whitespace becomes a space. Length is kept. |
| `BaukastenMapper.CollapseSpaces` | Create_data_files/enhanced_process_baukasten_mapper.py:151 | No two adjacent spaces remain. Every other character is a non-whitespace character of the input. A text starting with a non-whitespace character keeps it first, and one starting with whitespace starts with one space. |
| `BaukastenMapper.CollapseSpacesWords` | Create_data_files/enhanced_process_baukasten_mapper.py:151 | Collapsing whitespace runs keeps every word, and so every non-whitespace character, in order. |
| `BaukastenMapper.TidyWords` | Create_data_files/enhanced_process_baukasten_mapper.py:151-169 | Non-empty text whose only whitespace is single inner spaces is its `split()` words joined by one space, so the words are exactly the runs between the spaces. |
| `BaukastenMapper.CollapsedTidy` | Create_data_files/enhanced_process_baukasten_mapper.py:151 | Collapsing whitespace runs and stripping leaves only single inner spaces. |
| `BaukastenMapper.PreprocessText` | Create_data_files/enhanced_process_baukasten_mapper.py:145-152 | NaN or None gives "". The result is never longer than `str(text)` and neither starts nor ends with whitespace. |
| `BaukastenMapper.PreprocessTextWords` | Create_data_files/enhanced_process_baukasten_mapper.py:145-152 | For a present value, the result is the words of the lower-cased text with special characters turned into spaces, joined by single spaces ("Hello, World!" gives "hello world"). It is "" exactly when there are no such words, and it keeps every non-whitespace character of that text, in order. |
| `BaukastenMapper.PreprocessTextClean` | Create_data_files/enhanced_process_baukasten_mapper.py:145-152 | NaN or None gives "". The result holds only lower-case word characters and single spaces, with no leading or trailing space. |
| `BaukastenMapper.CleanFixed` | Create_data_files/enhanced_process_baukasten_mapper.py:148-151 | Text already in that form is returned unchanged. |
| `BaukastenMapper.PreprocessTextIdempotent` | Create_data_files/enhanced_process_baukasten_mapper.py:145-152 | Applying the cleaning twice gives the same result as once. |
| `BaukastenMapper.DashGuardDead` | Create_data_files/enhanced_process_baukasten_mapper.py:174 | Cleaned text is never "-", so the `!= '-'` tests never reject. |
| `BaukastenMapper.WordCharIn` | Create_data_files/enhanced_process_baukasten_mapper.py:169 | The characters of the words come from the text. |
| `BaukastenMapper.CleanWords` | Create_data_files/enhanced_process_baukasten_mapper.py:169 | A word of cleaned text is non-empty lower-case word characters. |
| `BaukastenMapper.KeywordsClean` | Create_data_files/enhanced_process_baukasten_mapper.py:154-188 | Every keyword is non-empty and lower-case. All but the process type are single words of word characters. |
| `BaukastenMapper.KeywordSet` | Create_data_files/enhanced_process_baukasten_mapper.py:164-186 | The keyword set never holds "". It holds every word of the cleaned process name, and the cleaned process type when that is non-empty. |
| `BaukastenMapper.NumberedFieldWords` | Create_data_files/enhanced_process_baukasten_mapper.py:172-175 | The words of the numbered columns never include "". |
| `BaukastenMapper.ExtractKeywords` | Create_data_files/enhanced_process_baukasten_mapper.py:154-188 | The list has no duplicates and holds exactly the words of the name, the three characteristic classes and the two boundary conditions, plus the process type when it is not empty. |
| `BaukastenMapper.ExtendWithFields` | Create_data_files/enhanced_process_baukasten_mapper.py:172-175 | The numbered-column loop collects exactly those columns' words. |
| `BaukastenMapper.Positives` | Create_data_files/enhanced_process_baukasten_mapper.py:437 | Exactly the positive scores are kept. |
| `BaukastenMapper.Max` | Create_data_files/enhanced_process_baukasten_mapper.py:444 | `max` is an element and bounds every element. |
| `BaukastenMapper.ClampedThreshold` | Create_data_files/enhanced_process_baukasten_mapper.py:447-454 | For any mean and deviation the result lies in [0.1, 0.3]. It is 0.1 when the best score is at most 0.4, at least 0.15 above 0.4, and at least 0.2 above 0.7. |
| `BaukastenMapper.AdaptiveThreshold` | Create_data_files/enhanced_process_baukasten_mapper.py:424-454 | 0.1 when there are no scores or no positive scores. Otherwise the result lies in [0.1, 0.3] with the floors above. |
| `BaukastenMapper.ThresholdIgnoresNonPositive` | Create_data_files/enhanced_process_baukasten_mapper.py:437 | Adding a score ≤ 0 does not move the threshold. |
| `BaukastenMapper.ThresholdKeepsStrongMatch` | Create_data_files/enhanced_process_baukasten_mapper.py:505-509 | A score above 0.3 always passes the threshold. |
| `BaukastenMapper.SubprocessSteps` | Create_data_files/enhanced_process_baukasten_mapper.py:535-580 | One write per subprocess that has a row, storing its matches under its number. |
| `BaukastenMapper.ColumnNumbers` | Create_data_files/enhanced_process_baukasten_mapper.py:609 | NaN becomes None and other cells become `int(x)`. It fails exactly when some cell's `int()` raises. |
| `BaukastenMapper.NewRow` | Create_data_files/enhanced_process_baukasten_mapper.py:626-627 | An appended row has one cell per column. |
| `BaukastenMapper.Place` | Create_data_files/enhanced_process_baukasten_mapper.py:620-631 | One element lands in row 3+k of column col+1, or in a new row appended at the end when row 3+k does not exist. The appended row starts with k+1 and holds None elsewhere. Every other row and every other column keeps its cells, and each row keeps the sheet's width. |
| `BaukastenMapper.FillColumn` | Create_data_files/enhanced_process_baukasten_mapper.py:619-631 | Filling one column keeps the width, never removes rows, and leaves rows 0-2 alone. |
| `BaukastenMapper.FillColumns` | Create_data_files/enhanced_process_baukasten_mapper.py:615-631 | Filling the columns keeps the width, never removes rows, and leaves rows 0-2 alone. |
| `BaukastenMapper.FilledMatrix` | Create_data_files/enhanced_process_baukasten_mapper.py:590-633 | Fails exactly when there is no row 1 (IndexError) or a number cell fails `int()`. On success the width is kept, no row is removed, and rows 0 and 1 are unchanged. |
| `BaukastenMapper.FillColumnCells` | Create_data_files/enhanced_process_baukasten_mapper.py:612-631 | On a grid with at least three rows, element k lands at row 3+k in column col+1. Missing rows are appended with first cell k+1, and nothing else changes. |
| `BaukastenMapper.FillColumnShortGrid` | Create_data_files/enhanced_process_baukasten_mapper.py:621-631 | On a two-row grid the first appended row is index 2, so element k lands at row 2+k. |
| `BaukastenMapper.FillColumnsCells` | Create_data_files/enhanced_process_baukasten_mapper.py:612-631 | On a sheet of at least three rows, each active column holds its elements from row 3 down and keeps the cells below them. Columns whose number is None, 0 or unmapped keep their cells, and rows 0-2 are untouched. Each appended row starts with its number (index − 2) and holds the element that landed in each column, or None. |
| `BaukastenMapper.FillColumnsPlaced` | Create_data_files/enhanced_process_baukasten_mapper.py:615-631 | On a sheet of at least three rows, each active column holds its elements from row 3 down, and the sheet is long enough for them. |
| `BaukastenMapper.FillColumnsOthers` | Create_data_files/enhanced_process_baukasten_mapper.py:615-631 | On a sheet of at least three rows, columns not yet reached, and columns whose number is None, 0 or unmapped, keep their cells. |
| `BaukastenMapper.FillColumnsBelow` | Create_data_files/enhanced_process_baukasten_mapper.py:615-631 | On a sheet of at least three rows, an active column keeps the cells below its list of elements. |
| `BaukastenMapper.FillColumnsTail` | Create_data_files/enhanced_process_baukasten_mapper.py:625-631 | On a sheet of at least three rows, each appended row starts with its number (index − 2) and holds, in each column, the element that landed there or None. |
| `BaukastenMapper.AppendedStep` | Create_data_files/enhanced_process_baukasten_mapper.py:615-631 | On a sheet of at least three rows, one more active column keeps the appended rows as `AppendedCell` describes them. |
| `BaukastenMapper.Mapper.constructor` | Create_data_files/enhanced_process_baukasten_mapper.py:60-76 | Loading builds the subprocess hierarchy from the process rows. |
| `BaukastenMapper.Mapper.BuildSubprocessHierarchy` | Create_data_files/enhanced_process_baukasten_mapper.py:94-122 | The row loop sets the hierarchy to `HierarchyOf(rows)` and leaves the rows and the matrix unchanged. |
| `BaukastenMapper.Mapper.CombineSubprocessMatches` | Create_data_files/enhanced_process_baukasten_mapper.py:527-585 | The main process ends with a duplicate-free list of exactly its own matches and every found subprocess's matches. Every other key holds what the per-subprocess writes left there. |
| `BaukastenMapper.Mapper.CreateEnhancedFilledMatrix` | Create_data_files/enhanced_process_baukasten_mapper.py:590-633 | The nested loops compute `FilledMatrix`. A grid without row 1 raises IndexError, and a number cell `int()` rejects raises its error. |

## Left out

- The D3 tree layout (`d3.tree().size`), zoom and pan, SVG drawing, transitions, styles and the details box are rendering library calls. The layout's x for each node is an input (`layoutX`).
- `treeData.descendants()` lists nodes breadth-first, but the model visits visible nodes in pre-order. This only changes which fresh key each new node gets. The contracts (`Keyed`) hold for any order.
- React state updates (`setCurrentRoot`, `setSelectedNode`) and effect scheduling are modelled as immediate assignments and an explicit `RunEffect` call. The effect that copies `data` into `currentRoot` is folded into the constructor. A later change of `data` is not modelled: the source keeps the first hierarchy in `rootRef`.
- A drill-down operation, an ancestor stack, an initial-collapse or root-expansion policy, and errors for go-back at the root or for stale keys do not exist in the component's code, so none are modelled. `currentRoot` is only ever the root record, whose parent is never found, so go-back is always a no-op (`RootHasNoParent`). The "Already at the root node." message is console output.
- The similarity scoring of the mapper (sequence matching, sentence embeddings, domain and technical scores) is floating-point and library numerics. The per-process match lists are inputs to the merge step.
- `BaukastenMapper.AdaptiveThreshold`: `np.std` is taken as a parameter, because the model computes no square roots. Scores are exact reals, so float rounding of `np.mean` is not modelled.
- `BaukastenMapper.Mapper.CombineSubprocessMatches`: the matches of the main process and of each subprocess are parameters, not computed. `None` marks a subprocess with no row in the process sheet.
- `Common.Distinct`: Python's `list(set(..))` enumerates in hash order. The model promises only what the source relies on: no duplicates and the same elements.
- `BaukastenMapper.ExtractKeywords`: the keyword order is left open, as for `Common.Distinct`.
- File, Excel and JSON I/O (`load_data`, `excel_to_json`, `save_enhanced_results`, `json.dump`, `read_excel`) and all printing. Header-row detection and row dropping at load time are part of this I/O. Rows reach the model as records that hold a Prozessnummer.
- Python `int()` on text: ASCII digits, an optional sign and surrounding whitespace are modelled. Underscores and non-ASCII digits are not.
- `str.lower()` and the regex class `\w` are exact for ASCII and Latin-1 (up to U+00FF). Above that, characters are neither lowered nor counted as word characters.
- Floats are kept as their exact value plus the text `str()` prints for them. Infinities are not modelled. Which Python exception type is raised is reduced to a small `PyError` enumeration.
- pandas' renaming of duplicate column names is not modelled. The column lemma of `matrix_to_json` assumes distinct names.
- Exit transitions: `exit().transition().duration(750).remove()` (src/components/MindMap.js:76 and :96) keeps exiting nodes and links on screen for 750 ms. The model drops them from the drawn key sets at once, since timing belongs to the rendering library.
- `build_hauptprozess_json` overwrites the caller's `df_process[col_id]` column with the normalised ids (Create_data_files/create_data_json.py:117). The model computes the normalised ids without writing them back into its input rows.
- `.str.lower()` (Create_data_files/create_data_json.py:120) raises AttributeError when the Prozessart column holds no strings at all. In a column with some strings it gives NaN for the others. The model has no column types, so it treats every non-string cell as "not a Hauptprozess" and never raises.
- The server's `exec` of a script, the fetch in the app, and the list, container and button components are process plumbing and UI.
