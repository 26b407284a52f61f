/** The CWL document inspection of cerise/back_end/cwl.py: classifying a
    document, reading its core count hint, collecting the File objects of
    an input or output binding (with their secondaryFiles) into InputFile
    trees, and classifying the runner's log. Documents arrive parsed. */
module Cwl {
  import opened Wrappers
  import opened Json
  import opened Text
  import opened InputFiles
  import opened Jobs

  /* ----- Process class ----- */

  /** `workflow.get('class') == 'Workflow'`; only a dict has `.get`. */
  function IsWorkflow(doc: Json): (r: Result<bool>)
    ensures r.Ok? <==> doc.JObject?
    ensures r.Ok? ==> (r.value <==> Lookup(doc.fields, "class") == Some(JString("Workflow")))
  {
    if doc.JObject? then Ok(GetOrNull(doc.fields, "class") == JString("Workflow"))
    else Err(WrongType)
  }

  /* ----- Required number of cores ----- */

  /** `hints.ResourceRequirement` along the path of `.get` calls, or None
      where the path stops at a missing or null value. */
  function Requirement(doc: Json): Option<Json>
    requires doc.JObject?
  {
    var hints := GetOrNull(doc.fields, "hints");
    if hints.JObject? && GetOrNull(hints.fields, "ResourceRequirement") != JNull
    then Some(GetOrNull(hints.fields, "ResourceRequirement"))
    else None
  }

  /** The `coresMin` hint, else the `coresMax` hint, else 0. A `.get` on a
      value that is neither a dict nor null raises. */
  function RequiredNumCores(doc: Json): (r: Result<Json>)
    ensures !doc.JObject? ==> r == Err(WrongType)
    ensures doc.JObject? && GetOrNull(doc.fields, "hints") == JNull ==> r == Ok(JInt(0))
    ensures doc.JObject? && Requirement(doc).Some? && !Requirement(doc).value.JObject? ==> r == Err(WrongType)
    ensures doc.JObject? && Requirement(doc).Some? && Requirement(doc).value.JObject? ==>
      var rr := Requirement(doc).value.fields;
      r == Ok(if GetOrNull(rr, "coresMin") != JNull then GetOrNull(rr, "coresMin")
              else if GetOrNull(rr, "coresMax") != JNull then GetOrNull(rr, "coresMax")
              else JInt(0))
    ensures doc.JObject? && GetOrNull(doc.fields, "hints").JObject? && Requirement(doc).None? ==> r == Ok(JInt(0))
    ensures doc.JObject? && !GetOrNull(doc.fields, "hints").JNull? && !GetOrNull(doc.fields, "hints").JObject? ==>
      r == Err(WrongType)
  {
    if !doc.JObject? then Err(WrongType)
    else
      var hints := GetOrNull(doc.fields, "hints");
      if hints == JNull then Ok(JInt(0))
      else if !hints.JObject? then Err(WrongType)
      else
        var requirement := GetOrNull(hints.fields, "ResourceRequirement");
        if requirement == JNull then Ok(JInt(0))
        else if !requirement.JObject? then Err(WrongType)
        else
          var coresMin := GetOrNull(requirement.fields, "coresMin");
          var coresMax := GetOrNull(requirement.fields, "coresMax");
          if coresMin != JNull then Ok(coresMin)
          else if coresMax != JNull then Ok(coresMax)
          else Ok(JInt(0))
  }

  /* ----- Secondary files ----- */

  /** Resolves the list held by a `secondaryFiles` attribute. Iterating a
      dict or a string yields keys or characters, none of them a dict, so
      both resolve to no files; anything else cannot be iterated. */
  function SecondaryFiles(list: Json): (r: Result<seq<InputFile>>)
    decreases list, 2
  {
    match list
    case JArray(items) => SecondaryEntries(items)
    case JObject(_) => Ok([])
    case JString(_) => Ok([])
    case _ => Err(WrongType)
  }

  /** The entries of a secondaryFiles list in order: non-dicts are skipped,
      a File becomes a node (its location read before its own
      secondaryFiles are resolved), a Directory and any other dict raise. */
  function SecondaryEntries(items: seq<Json>): (r: Result<seq<InputFile>>)
    ensures r.Ok? ==> |r.value| <= |items|
    decreases items, 1
  {
    if items == [] then Ok([])
    else
      var v := items[0];
      if !v.JObject? then SecondaryEntries(items[1..])
      else if Lookup(v.fields, "class") == Some(JString("File")) then
        var location :- Field(v, "location");
        var subs :- SecondaryOf(v);
        var rest :- SecondaryEntries(items[1..]);
        Ok([InputFile(None, location, None, subs, None, None)] + rest)
      else if Lookup(v.fields, "class") == Some(JString("Directory")) then Err(DirectoryUnsupported)
      else Err(InvalidSecondaryFile)
  }

  /** The secondary files of a File object: none when it has no
      `secondaryFiles` attribute. */
  function SecondaryOf(file: Json): (r: Result<seq<InputFile>>)
    requires file.JObject?
    decreases file, 0
  {
    match Lookup(file.fields, "secondaryFiles")
    case None => Ok([])
    case Some(list) =>
      assert list < file by {
        LookupIn(file.fields, "secondaryFiles");
        var i :| 0 <= i < |file.fields| && file.fields[i] == ("secondaryFiles", list);
        assert file.fields[i].1 == list;
      }
      SecondaryFiles(list)
  }

  /** The dicts of a list, in order: the entries that a successful
      resolution turns into files. */
  function Dicts(items: seq<Json>): (ds: seq<Json>)
    ensures |ds| <= |items|
    ensures forall k :: 0 <= k < |ds| ==> ds[k].JObject?
  {
    if items == [] then []
    else if items[0].JObject? then [items[0]] + Dicts(items[1..])
    else Dicts(items[1..])
  }

  /** `f` is the node a File object resolves to. */
  predicate Describes(f: InputFile, d: Json)
    requires d.JObject?
  {
    && Lookup(d.fields, "location") == Some(f.location)
    && f.content.None? && f.source.None?
    && SecondaryOf(d) == Ok(f.secondaryFiles)
  }

  /** The resolution of a dict entry succeeds on its own. */
  predicate ValidSecondary(d: Json)
    requires d.JObject?
  {
    IsFileObject(d) && "location" in Keys(d.fields) && SecondaryOf(d).Ok?
  }

  lemma FileClass(d: Json)
    requires d.JObject?
    ensures IsFileObject(d) <==> Lookup(d.fields, "class") == Some(JString("File"))
  {
  }

  /** One step of the resolution of a list that starts with a dict. */
  lemma SecondaryEntriesCons(items: seq<Json>)
    requires items != [] && items[0].JObject?
    ensures SecondaryEntries(items).Ok? <==> ValidSecondary(items[0]) && SecondaryEntries(items[1..]).Ok?
    ensures SecondaryEntries(items).Ok? ==>
      SecondaryEntries(items).value ==
        [InputFile(None, Field(items[0], "location").value, None, SecondaryOf(items[0]).value, None, None)]
        + SecondaryEntries(items[1..]).value
  {
    FileClass(items[0]);
  }

  /** Every dict of a list resolves on its own. */
  predicate AllValidSecondary(ds: seq<Json>)
    requires forall k :: 0 <= k < |ds| ==> ds[k].JObject?
  {
    ds == [] || (ValidSecondary(ds[0]) && AllValidSecondary(ds[1..]))
  }

  lemma AllValidSecondaryCons(v: Json, rest: seq<Json>)
    requires v.JObject? && forall k :: 0 <= k < |rest| ==> rest[k].JObject?
    ensures AllValidSecondary([v] + rest) <==> ValidSecondary(v) && AllValidSecondary(rest)
  {
    assert ([v] + rest)[1..] == rest;
  }

  /** A list resolves exactly when every dict in it is a well-formed File. */
  lemma {:induction false} SecondaryEntriesOk(items: seq<Json>)
    ensures SecondaryEntries(items).Ok? <==> AllValidSecondary(Dicts(items))
  {
    if items != [] {
      SecondaryEntriesOk(items[1..]);
      var v := items[0];
      if v.JObject? {
        SecondaryEntriesCons(items);
        assert Dicts(items) == [v] + Dicts(items[1..]);
        AllValidSecondaryCons(v, Dicts(items[1..]));
      } else {
        assert Dicts(items) == Dicts(items[1..]);
      }
    }
  }

  /** A resolved list has one node per dict, in order, each unnamed,
      without index, and resolved from that dict. */
  lemma {:induction false} SecondaryEntriesNodes(items: seq<Json>)
    requires SecondaryEntries(items).Ok?
    ensures
      var fs := SecondaryEntries(items).value;
      && |fs| == |Dicts(items)|
      && forall k :: 0 <= k < |fs| ==>
           fs[k].name.None? && fs[k].index.None? && Describes(fs[k], Dicts(items)[k])
  {
    if items != [] {
      var v := items[0];
      var rest := Dicts(items[1..]);
      if v.JObject? {
        SecondaryEntriesCons(items);
        SecondaryEntriesNodes(items[1..]);
        var ds := Dicts(items);
        assert ds == [v] + rest;
        var fs := SecondaryEntries(items).value;
        var restFs := SecondaryEntries(items[1..]).value;
        assert fs == [fs[0]] + restFs;
        forall k | 0 <= k < |fs|
          ensures fs[k].name.None? && fs[k].index.None? && Describes(fs[k], ds[k])
        {
          if k > 0 {
            assert fs[k] == restFs[k - 1] && ds[k] == rest[k - 1];
          }
        }
      } else {
        assert Dicts(items) == rest;
        SecondaryEntriesNodes(items[1..]);
      }
    }
  }

  /** A Directory anywhere in a secondaryFiles list is reported, never
      dropped. */
  lemma {:induction false} DirectoryRejected(items: seq<Json>, k: nat)
    requires k < |items| && items[k].JObject?
    requires Lookup(items[k].fields, "class") == Some(JString("Directory"))
    ensures SecondaryEntries(items).Err?
  {
    FileClass(items[k]);
    if k > 0 {
      assert items[1..][k - 1] == items[k];
      DirectoryRejected(items[1..], k - 1);
    }
  }

  /** When the dicts before it resolve, the Directory is the error raised. */
  lemma {:induction false} DirectoryRaised(items: seq<Json>, k: nat)
    requires k < |items| && items[k].JObject?
    requires Lookup(items[k].fields, "class") == Some(JString("Directory"))
    requires forall j :: 0 <= j < k && items[j].JObject? ==> ValidSecondary(items[j])
    ensures SecondaryEntries(items) == Err(DirectoryUnsupported)
  {
    FileClass(items[k]);
    if k > 0 {
      assert items[1..][k - 1] == items[k];
      forall j | 0 <= j < k - 1 && items[1..][j].JObject?
        ensures ValidSecondary(items[1..][j])
      {
        assert items[1..][j] == items[j + 1];
      }
      DirectoryRaised(items[1..], k - 1);
      if items[0].JObject? {
        FileClass(items[0]);
      }
    }
  }

  /* ----- Files of a binding ----- */

  /** A place in a binding holding a File object: the entry `name`, and
      for an array-valued entry the position in the array. */
  datatype Slot = Slot(name: string, index: Option<nat>, desc: Json)

  /** The File slots of a binding's entries, in key order and then in
      position order: the reference for what the resolver returns. */
  function FileSlots(fields: seq<(string, Json)>): (slots: seq<Slot>)
    ensures forall k :: 0 <= k < |slots| ==> IsFileObject(slots[k].desc) && slots[k].name in Keys(fields)
  {
    if fields == [] then [] else EntrySlots(fields[0].0, fields[0].1) + FileSlots(fields[1..])
  }

  function EntrySlots(name: string, value: Json): (slots: seq<Slot>)
    ensures forall k :: 0 <= k < |slots| ==> IsFileObject(slots[k].desc) && slots[k].name == name
  {
    if IsFileObject(value) then [Slot(name, None, value)]
    else if value.JArray? then ArraySlots(name, value.items, 0)
    else []
  }

  /** The File slots of the list elements `items`, the first of which is
      at position `start`. */
  function ArraySlots(name: string, items: seq<Json>, start: nat): (slots: seq<Slot>)
    ensures forall k :: 0 <= k < |slots| ==>
      && IsFileObject(slots[k].desc) && slots[k].name == name
      && slots[k].index.Some? && start <= slots[k].index.value < start + |items|
      && items[slots[k].index.value - start] == slots[k].desc
    decreases |items|
  {
    if items == [] then []
    else ElementSlots(name, items[0], start) + ArraySlots(name, items[1..], start + 1)
  }

  /** `get_files_from_binding`: None has no files; a dict is scanned
      entry by entry; anything else cannot be scanned. */
  function FilesFromBinding(binding: Json): (r: Result<seq<InputFile>>)
    ensures binding.JNull? ==> r == Ok([])
    ensures !binding.JNull? && !binding.JObject? ==> r == Err(WrongType)
  {
    match binding
    case JNull => Ok([])
    case JObject(fields) => BindingEntries(fields)
    case _ => Err(WrongType)
  }

  function BindingEntries(fields: seq<(string, Json)>): (r: Result<seq<InputFile>>)
  {
    if fields == [] then Ok([])
    else
      var here :- EntryFiles(fields[0].0, fields[0].1);
      var rest :- BindingEntries(fields[1..]);
      Ok(here + rest)
  }

  function EntryFiles(name: string, value: Json): (r: Result<seq<InputFile>>)
  {
    if IsFileObject(value) then
      var f :- BindingFile(name, value, None);
      Ok([f])
    else if value.JArray? then ArrayFiles(name, value.items, 0)
    else Ok([])
  }

  /** The loop over a list value, from the element at position `start`
      on: each File element is resolved with its position as index. */
  function ArrayFiles(name: string, items: seq<Json>, start: nat): (r: Result<seq<InputFile>>)
    decreases |items|
  {
    if items == [] then Ok([])
    else
      var here :- ElementFiles(name, items[0], start);
      var rest :- ArrayFiles(name, items[1..], start + 1);
      Ok(here + rest)
  }

  /** A File value of a binding: its secondary files are resolved before
      its location is read. */
  function BindingFile(name: string, value: Json, index: Option<nat>): (r: Result<InputFile>)
    requires value.JObject?
  {
    var secondary :- SecondaryOf(value);
    var location :- Field(value, "location");
    Ok(InputFile(Some(name), location, None, secondary, index, None))
  }

  /** The resolution of a File slot succeeds on its own. */
  predicate ValidSlot(s: Slot) {
    s.desc.JObject? && "location" in Keys(s.desc.fields) && SecondaryOf(s.desc).Ok?
  }

  /** `f` is the node resolved from slot `s`. */
  predicate FromSlot(f: InputFile, s: Slot) {
    s.desc.JObject? && f.name == Some(s.name) && f.index == s.index && Describes(f, s.desc)
  }

  predicate AllFromSlots(fs: seq<InputFile>, slots: seq<Slot>) {
    |fs| == |slots| && forall k :: 0 <= k < |fs| ==> FromSlot(fs[k], slots[k])
  }

  predicate AllValid(slots: seq<Slot>) {
    forall k :: 0 <= k < |slots| ==> ValidSlot(slots[k])
  }

  lemma AllFromSlotsAppend(a: seq<InputFile>, sa: seq<Slot>, b: seq<InputFile>, sb: seq<Slot>)
    requires AllFromSlots(a, sa) && AllFromSlots(b, sb)
    ensures AllFromSlots(a + b, sa + sb)
  {
    var sab := sa + sb;
    forall k | 0 <= k < |a + b| ensures FromSlot((a + b)[k], sab[k]) {
      if k >= |a| {
        assert (a + b)[k] == b[k - |a|] && sab[k] == sb[k - |sa|];
      }
    }
  }

  lemma AllValidAppend(sa: seq<Slot>, sb: seq<Slot>)
    ensures AllValid(sa + sb) <==> AllValid(sa) && AllValid(sb)
  {
    var sab := sa + sb;
    if AllValid(sa) && AllValid(sb) {
      forall k | 0 <= k < |sab| ensures ValidSlot(sab[k]) {
        if k >= |sa| {
          assert sab[k] == sb[k - |sa|];
        }
      }
    }
    if AllValid(sab) {
      forall k | 0 <= k < |sa| ensures ValidSlot(sa[k]) {
        assert sab[k] == sa[k];
      }
      forall k | 0 <= k < |sb| ensures ValidSlot(sb[k]) {
        assert sab[k + |sa|] == sb[k];
      }
    }
  }

  /** The files an array element at position `index` contributes on its own. */
  function ElementFiles(name: string, item: Json, index: nat): Result<seq<InputFile>> {
    if IsFileObject(item) then (var f :- BindingFile(name, item, Some(index)); Ok([f])) else Ok([])
  }

  function ElementSlots(name: string, item: Json, index: nat): seq<Slot> {
    if IsFileObject(item) then [Slot(name, Some(index), item)] else []
  }

  lemma ElementSpec(name: string, item: Json, index: nat)
    ensures ElementFiles(name, item, index).Ok? <==> AllValid(ElementSlots(name, item, index))
    ensures ElementFiles(name, item, index).Ok? ==>
      AllFromSlots(ElementFiles(name, item, index).value, ElementSlots(name, item, index))
  {
    if IsFileObject(item) {
      var s := Slot(name, Some(index), item);
      assert ElementSlots(name, item, index) == [s];
      assert AllValid([s]) <==> ValidSlot(s) by {
        assert [s][0] == s;
      }
      assert ElementFiles(name, item, index).Ok? <==> ValidSlot(s);
      if ElementFiles(name, item, index).Ok? {
        assert FromSlot(ElementFiles(name, item, index).value[0], s);
      }
    }
  }

  lemma ArrayFilesCons(name: string, items: seq<Json>, start: nat)
    requires items != []
    ensures ArrayFiles(name, items, start).Ok? <==>
      ElementFiles(name, items[0], start).Ok? && ArrayFiles(name, items[1..], start + 1).Ok?
    ensures ArrayFiles(name, items, start).Ok? ==>
      ArrayFiles(name, items, start).value ==
      ElementFiles(name, items[0], start).value + ArrayFiles(name, items[1..], start + 1).value
    ensures ArraySlots(name, items, start) == ElementSlots(name, items[0], start) + ArraySlots(name, items[1..], start + 1)
  {
  }

  /** An array resolves exactly when each of its File slots does. */
  lemma {:induction false} ArrayFilesOk(name: string, items: seq<Json>, start: nat)
    ensures ArrayFiles(name, items, start).Ok? <==> AllValid(ArraySlots(name, items, start))
    decreases |items|
  {
    if items != [] {
      ArrayFilesOk(name, items[1..], start + 1);
      ArrayFilesCons(name, items, start);
      ElementSpec(name, items[0], start);
      AllValidAppend(ElementSlots(name, items[0], start), ArraySlots(name, items[1..], start + 1));
    }
  }

  /** A resolved array has one node per File slot, in position order. */
  lemma {:induction false} ArrayFilesFromSlots(name: string, items: seq<Json>, start: nat)
    requires ArrayFiles(name, items, start).Ok?
    ensures AllFromSlots(ArrayFiles(name, items, start).value, ArraySlots(name, items, start))
    decreases |items|
  {
    if items != [] {
      ArrayFromSlotsStep(name, items, start);
      ArrayFilesFromSlots(name, items[1..], start + 1);
    }
  }

  lemma ArrayFromSlotsStep(name: string, items: seq<Json>, start: nat)
    requires items != []
    requires ArrayFiles(name, items, start).Ok?
    ensures ArrayFiles(name, items[1..], start + 1).Ok?
    ensures AllFromSlots(ArrayFiles(name, items[1..], start + 1).value, ArraySlots(name, items[1..], start + 1)) ==>
      AllFromSlots(ArrayFiles(name, items, start).value, ArraySlots(name, items, start))
  {
    ArrayFilesCons(name, items, start);
    ElementSpec(name, items[0], start);
    if AllFromSlots(ArrayFiles(name, items[1..], start + 1).value, ArraySlots(name, items[1..], start + 1)) {
      AllFromSlotsAppend(ElementFiles(name, items[0], start).value, ElementSlots(name, items[0], start),
        ArrayFiles(name, items[1..], start + 1).value, ArraySlots(name, items[1..], start + 1));
    }
  }

  /** The files a binding entry contributes on its own. */
  lemma EntrySpec(name: string, value: Json)
    ensures EntryFiles(name, value).Ok? <==> AllValid(EntrySlots(name, value))
    ensures EntryFiles(name, value).Ok? ==> AllFromSlots(EntryFiles(name, value).value, EntrySlots(name, value))
  {
    if IsFileObject(value) {
      var s := Slot(name, None, value);
      assert EntrySlots(name, value) == [s];
      assert AllValid([s]) <==> ValidSlot(s) by {
        assert [s][0] == s;
      }
      if EntryFiles(name, value).Ok? {
        assert FromSlot(EntryFiles(name, value).value[0], s);
      }
    } else if value.JArray? {
      ArrayFilesOk(name, value.items, 0);
      if EntryFiles(name, value).Ok? {
        ArrayFilesFromSlots(name, value.items, 0);
      }
    }
  }

  lemma BindingEntriesCons(fields: seq<(string, Json)>)
    requires fields != []
    ensures BindingEntries(fields).Ok? <==> EntryFiles(fields[0].0, fields[0].1).Ok? && BindingEntries(fields[1..]).Ok?
    ensures BindingEntries(fields).Ok? ==>
      BindingEntries(fields).value == EntryFiles(fields[0].0, fields[0].1).value + BindingEntries(fields[1..]).value
  {
  }

  lemma {:induction false} BindingEntriesSpec(fields: seq<(string, Json)>)
    ensures BindingEntries(fields).Ok? <==> AllValid(FileSlots(fields))
    ensures BindingEntries(fields).Ok? ==> AllFromSlots(BindingEntries(fields).value, FileSlots(fields))
  {
    if fields != [] {
      BindingEntriesSpec(fields[1..]);
      BindingEntriesCons(fields);
      var name := fields[0].0;
      var value := fields[0].1;
      EntrySpec(name, value);
      var here := EntrySlots(name, value);
      var rest := FileSlots(fields[1..]);
      AllValidAppend(here, rest);
      if BindingEntries(fields).Ok? {
        AllFromSlotsAppend(EntryFiles(name, value).value, here, BindingEntries(fields[1..]).value, rest);
      }
    }
  }

  /** The resolver succeeds exactly when every File slot of the binding
      has a location and well-formed secondary files, and then returns one
      node per slot, in order, carrying the slot's key and position. */
  lemma FilesFromBindingSpec(binding: Json)
    requires binding.JObject?
    ensures FilesFromBinding(binding).Ok? <==> AllValid(FileSlots(binding.fields))
    ensures FilesFromBinding(binding).Ok? ==> AllFromSlots(FilesFromBinding(binding).value, FileSlots(binding.fields))
  {
    BindingEntriesSpec(binding.fields);
  }

  /** A parsed dict holds each key once. */
  predicate UniqueKeys(fields: seq<(string, Json)>) {
    forall i, j :: 0 <= i < j < |fields| ==> fields[i].0 != fields[j].0
  }

  /** The value at a position of an entry's value: the value itself, or
      its element `index` when there is one. */
  function SlotIn(value: Json, index: Option<nat>): Option<Json> {
    match index
    case None => Some(value)
    case Some(i) => if value.JArray? && i < |value.items| then Some(value.items[i]) else None
  }

  /** `binding[name]`, or `binding[name][index]` when there is an index. */
  function SlotAt(fields: seq<(string, Json)>, name: string, index: Option<nat>): Option<Json> {
    match Lookup(fields, name)
    case None => None
    case Some(value) => SlotIn(value, index)
  }

  lemma EntrySlotsIn(name: string, value: Json)
    ensures forall k :: 0 <= k < |EntrySlots(name, value)| ==>
      SlotIn(value, EntrySlots(name, value)[k].index) == Some(EntrySlots(name, value)[k].desc)
  {
  }

  /** Every slot can be found again from its key and position, which is
      what lets staging rewrite the right array element. */
  lemma {:induction false} SlotsAreAddressable(fields: seq<(string, Json)>)
    requires UniqueKeys(fields)
    ensures forall k :: 0 <= k < |FileSlots(fields)| ==>
      SlotAt(fields, FileSlots(fields)[k].name, FileSlots(fields)[k].index) == Some(FileSlots(fields)[k].desc)
  {
    if fields != [] {
      var rest := fields[1..];
      assert UniqueKeys(rest) by {
        forall i, j | 0 <= i < j < |rest| ensures rest[i].0 != rest[j].0 {
          assert rest[i] == fields[i + 1] && rest[j] == fields[j + 1];
        }
      }
      SlotsAreAddressable(rest);
      var here := EntrySlots(fields[0].0, fields[0].1);
      var slots := FileSlots(fields);
      assert slots == here + FileSlots(rest);
      EntrySlotsIn(fields[0].0, fields[0].1);
      forall k | 0 <= k < |slots|
        ensures SlotAt(fields, slots[k].name, slots[k].index) == Some(slots[k].desc)
      {
        if k < |here| {
          assert slots[k] == here[k];
        } else {
          var s := FileSlots(rest)[k - |here|];
          assert slots[k] == s;
          var j :| 0 <= j < |rest| && rest[j].0 == s.name;
          assert fields[j + 1].0 == s.name;
          assert Lookup(fields, s.name) == Lookup(rest, s.name);
        }
      }
    }
  }

  /** Two slots are different places: different keys, or different
      positions in the same array. */
  predicate SlotsApart(s: Slot, t: Slot) {
    s.name != t.name || (s.index.Some? && t.index.Some? && s.index.value != t.index.value)
  }

  predicate AllSlotsApart(slots: seq<Slot>) {
    forall a, b :: 0 <= a < b < |slots| ==> SlotsApart(slots[a], slots[b])
  }

  /** The File elements of one array are at different positions. */
  lemma {:induction false} ArraySlotsApart(name: string, items: seq<Json>, start: nat)
    ensures AllSlotsApart(ArraySlots(name, items, start))
    decreases |items|
  {
    if items != [] {
      ArraySlotsApart(name, items[1..], start + 1);
      var here, rest := ElementSlots(name, items[0], start), ArraySlots(name, items[1..], start + 1);
      var slots := ArraySlots(name, items, start);
      assert slots == here + rest;
      forall a, b | 0 <= a < b < |slots| ensures SlotsApart(slots[a], slots[b]) {
        var t := rest[b - |here|];
        assert slots[b] == t;
        if a < |here| {
          assert slots[a].index == Some(start) && start < t.index.value;
        } else {
          assert slots[a] == rest[a - |here|];
        }
      }
    }
  }

  /** The File slots of a binding whose keys are unique are pairwise
      different places. */
  lemma {:induction false} FileSlotsApart(fields: seq<(string, Json)>)
    requires UniqueKeys(fields)
    ensures AllSlotsApart(FileSlots(fields))
  {
    if fields != [] {
      var rest := fields[1..];
      assert UniqueKeys(rest) by {
        forall i, j | 0 <= i < j < |rest| ensures rest[i].0 != rest[j].0 {
          assert rest[i] == fields[i + 1] && rest[j] == fields[j + 1];
        }
      }
      FileSlotsApart(rest);
      var value := fields[0].1;
      if !IsFileObject(value) && value.JArray? {
        ArraySlotsApart(fields[0].0, value.items, 0);
      }
      var here, others := EntrySlots(fields[0].0, value), FileSlots(rest);
      forall t | t in others ensures t.name != fields[0].0 {
        var j :| 0 <= j < |rest| && rest[j].0 == t.name;
        assert fields[j + 1].0 == t.name;
      }
      AllSlotsApartAppend(here, others);
    }
  }

  /** Two lists of slots apart within themselves, whose names differ
      between them, are apart together. */
  lemma AllSlotsApartAppend(here: seq<Slot>, others: seq<Slot>)
    requires AllSlotsApart(here) && AllSlotsApart(others)
    requires forall s, t :: s in here && t in others ==> s.name != t.name
    ensures AllSlotsApart(here + others)
  {
    var slots := here + others;
    forall a, b | 0 <= a < b < |slots| ensures SlotsApart(slots[a], slots[b]) {
      if b < |here| {
        assert slots[a] == here[a] && slots[b] == here[b];
      } else if a < |here| {
        assert slots[a] == here[a] && slots[b] == others[b - |here|];
      } else {
        assert slots[a] == others[a - |here|] && slots[b] == others[b - |here|];
      }
    }
  }

  /** A File object with a location and nothing else. */
  function PlainFile(location: string): Json {
    JObject([("class", JString("File")), ("location", JString(location))])
  }

  lemma PlainFileResolves(name: string, location: string, index: Option<nat>)
    ensures BindingFile(name, PlainFile(location), index) == Ok(InputFile(Some(name), JString(location), None, [], index, None))
  {
    var fields := PlainFile(location).fields;
    assert Lookup(fields[1..][1..], "secondaryFiles") == None;
    assert Lookup(fields, "secondaryFiles") == None;
    assert Lookup(fields, "location") == Some(JString(location));
  }

  /** The array part of the example: one node per element, indexed. */
  lemma ArrayExample()
    ensures ArrayFiles("b", [PlainFile("f2"), PlainFile("f3")], 0) == Ok([
      InputFile(Some("b"), JString("f2"), None, [], Some(0), None),
      InputFile(Some("b"), JString("f3"), None, [], Some(1), None)])
  {
    var items := [PlainFile("f2"), PlainFile("f3")];
    PlainFileResolves("b", "f2", Some(0));
    PlainFileResolves("b", "f3", Some(1));
    assert IsFileObject(PlainFile("f2")) && IsFileObject(PlainFile("f3"));
    assert items[1..][1..] == [];
    assert ArrayFiles("b", items[1..][1..], 2) == Ok([]);
    ArrayFilesCons("b", items[1..], 1);
    ArrayFilesCons("b", items, 0);
    var x2 := InputFile(Some("b"), JString("f2"), None, [], Some(0), None);
    var x3 := InputFile(Some("b"), JString("f3"), None, [], Some(1), None);
    assert [x3] + [] == [x3];
    assert [x2] + [x3] == [x2, x3];
    assert ElementFiles("b", items[1..][0], 1) == Ok([x3]);
    assert ElementFiles("b", items[0], 0) == Ok([x2]);
  }

  /** The example binding {"a": File f1, "b": [File f2, File f3]}. */
  lemma BindingExample()
    ensures FilesFromBinding(JObject([("a", PlainFile("f1")), ("b", JArray([PlainFile("f2"), PlainFile("f3")]))])) == Ok([
      InputFile(Some("a"), JString("f1"), None, [], None, None),
      InputFile(Some("b"), JString("f2"), None, [], Some(0), None),
      InputFile(Some("b"), JString("f3"), None, [], Some(1), None)])
  {
    var fields := [("a", PlainFile("f1")), ("b", JArray([PlainFile("f2"), PlainFile("f3")]))];
    var items := [PlainFile("f2"), PlainFile("f3")];
    PlainFileResolves("a", "f1", None);
    ArrayExample();
    assert IsFileObject(PlainFile("f1"));
    var x1 := InputFile(Some("a"), JString("f1"), None, [], None, None);
    var x2 := InputFile(Some("b"), JString("f2"), None, [], Some(0), None);
    var x3 := InputFile(Some("b"), JString("f3"), None, [], Some(1), None);
    assert BindingEntries(fields[1..][1..]) == Ok([]);
    assert EntryFiles("a", PlainFile("f1")) == Ok([x1]);
    assert EntryFiles("b", JArray(items)) == Ok([x2, x3]);
    BindingEntriesCons(fields);
    BindingEntriesCons(fields[1..]);
    assert [x2, x3] + [] == [x2, x3];
    assert [x1] + [x2, x3] == [x1, x2, x3];
  }

  /* ----- Runner log ----- */

  const ValidationFailedMarker := "Tool definition failed validation:"
  const PermanentFailMarker := "Final process status is permanentFail"
  const TemporaryFailMarker := "Final process status is temporaryFail"
  const SuccessMarker := "Final process status is success"

  /** The outcome of a run from the runner's log, by the first marker found
      in priority order. */
  function CwltoolResult(log: string): (r: JobState)
    ensures r == PermanentFailure <==> Contains(log, ValidationFailedMarker) || Contains(log, PermanentFailMarker)
    ensures r == TemporaryFailure <==>
      !Contains(log, ValidationFailedMarker) && !Contains(log, PermanentFailMarker) && Contains(log, TemporaryFailMarker)
    ensures r == Success <==>
      !Contains(log, ValidationFailedMarker) && !Contains(log, PermanentFailMarker)
      && !Contains(log, TemporaryFailMarker) && Contains(log, SuccessMarker)
    ensures r == SystemError <==>
      !Contains(log, ValidationFailedMarker) && !Contains(log, PermanentFailMarker)
      && !Contains(log, TemporaryFailMarker) && !Contains(log, SuccessMarker)
  {
    if Contains(log, ValidationFailedMarker) then PermanentFailure
    else if Contains(log, PermanentFailMarker) then PermanentFailure
    else if Contains(log, TemporaryFailMarker) then TemporaryFailure
    else if Contains(log, SuccessMarker) then Success
    else SystemError
  }

  /** A log rule: a marker and the outcome it decides. */
  datatype Rule = Rule(marker: string, outcome: JobState)

  /** The outcome of the first rule whose marker occurs in the log. */
  function FirstMatch(rules: seq<Rule>, log: string, fallback: JobState): (r: JobState)
    ensures r == fallback || exists k :: 0 <= k < |rules| && r == rules[k].outcome && Contains(log, rules[k].marker)
  {
    if rules == [] then fallback
    else if Contains(log, rules[0].marker) then rules[0].outcome
    else FirstMatch(rules[1..], log, fallback)
  }

  const LogRules := [
    Rule(ValidationFailedMarker, PermanentFailure),
    Rule(PermanentFailMarker, PermanentFailure),
    Rule(TemporaryFailMarker, TemporaryFailure),
    Rule(SuccessMarker, Success)]

  /** The classification is the rule table read top to bottom. */
  lemma CwltoolResultIsFirstMatch(log: string)
    ensures CwltoolResult(log) == FirstMatch(LogRules, log, SystemError)
  {
    var r1 := LogRules[1..];
    var r2 := r1[1..];
    var r3 := r2[1..];
    assert r3 == [Rule(SuccessMarker, Success)];
    FirstMatchStep(LogRules, log, SystemError);
    FirstMatchStep(r1, log, SystemError);
    FirstMatchStep(r2, log, SystemError);
    FirstMatchStep(r3, log, SystemError);
    assert r3[1..] == [];
  }

  lemma FirstMatchStep(rules: seq<Rule>, log: string, fallback: JobState)
    requires rules != []
    ensures FirstMatch(rules, log, fallback) ==
      if Contains(log, rules[0].marker) then rules[0].outcome else FirstMatch(rules[1..], log, fallback)
  {
  }

  /** The outcome is always terminal. */
  lemma CwltoolResultTerminal(log: string)
    ensures IsTerminal(CwltoolResult(log)) && CwltoolResult(log) != Cancelled
  {
  }
}
