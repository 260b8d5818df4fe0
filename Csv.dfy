/** What the two CSV importers (importers/inventory_importer.py and
    importers/sales_importer.py) share: the records csv.DictReader yields,
    the header normalisation `{k.strip().lower(): v ...}`, the file-name
    check, and the outcome of `int(float(text))`. */
module Csv {
  import opened Common
  import opened Text

  /** One record of csv.DictReader: the items of its dict, that is the
      distinct raw headers in order of first appearance, each with the
      value of the last column under that exact header (None where the
      line is shorter than the header).
      `surplus` is set when the line is longer: the extra values are then
      filed under the key None. */
  datatype CsvRow = CsvRow(fields: seq<(string, Option<string>)>, surplus: bool)

  /** `k.strip().lower()`. */
  function HeaderKey(h: string): string {
    Lower(Strip(h))
  }

  /** The value of the last pair whose key, under `key`, is `name`. */
  function LastValue(fields: seq<(string, Option<string>)>, key: string -> string, name: string): Option<string>
    decreases |fields|
  {
    if fields == [] then None
    else if key(fields[|fields| - 1].0) == name then fields[|fields| - 1].1
    else LastValue(fields[..|fields| - 1], key, name)
  }

  /** `normalized.get(name)`: later keys overwrite earlier ones in the
      comprehension, and a missing key gives None. */
  function Field(fields: seq<(string, Option<string>)>, name: string): Option<string> {
    LastValue(fields, (h: string) => HeaderKey(h), name)
  }

  /** Pair j carries `name` and no later pair does. */
  ghost predicate LastWithKey(fields: seq<(string, Option<string>)>, key: string -> string, name: string, j: int)
    requires 0 <= j < |fields|
  {
    key(fields[j].0) == name && forall l :: j < l < |fields| ==> key(fields[l].0) != name
  }

  /** The value comes from the last column with that header; no such column
      means None. */
  lemma LastValueSpec(fields: seq<(string, Option<string>)>, key: string -> string, name: string)
    ensures (forall j :: 0 <= j < |fields| ==> key(fields[j].0) != name) ==> LastValue(fields, key, name).None?
    ensures forall j :: 0 <= j < |fields| && LastWithKey(fields, key, name, j) ==>
              LastValue(fields, key, name) == fields[j].1
  {
    if forall j :: 0 <= j < |fields| ==> key(fields[j].0) != name {
      LastValueMissing(fields, key, name);
    }
    forall j | 0 <= j < |fields| && LastWithKey(fields, key, name, j)
      ensures LastValue(fields, key, name) == fields[j].1
    {
      LastValueLast(fields, key, name, j);
    }
  }

  lemma {:induction false} LastValueMissing(fields: seq<(string, Option<string>)>, key: string -> string, name: string)
    requires forall j :: 0 <= j < |fields| ==> key(fields[j].0) != name
    ensures LastValue(fields, key, name).None?
    decreases |fields|
  {
    if fields != [] {
      var n := |fields| - 1;
      assert key(fields[n].0) != name;
      assert forall j :: 0 <= j < n ==> fields[..n][j] == fields[j];
      LastValueMissing(fields[..n], key, name);
    }
  }

  lemma {:induction false} LastValueLast(fields: seq<(string, Option<string>)>, key: string -> string, name: string, j: int)
    requires 0 <= j < |fields| && LastWithKey(fields, key, name, j)
    ensures LastValue(fields, key, name) == fields[j].1
    decreases |fields|
  {
    var n := |fields| - 1;
    if j < n {
      assert key(fields[n].0) != name;
      var front := fields[..n];
      assert forall l :: j < l < n ==> front[l] == fields[l];
      assert LastWithKey(front, key, name, j);
      LastValueLast(front, key, name, j);
    }
  }

  /** `str.endswith(suffix)`. */
  predicate EndsWith(s: string, suffix: string) {
    |suffix| <= |s| && s[|s| - |suffix|..] == suffix
  }

  /** `if not file or not file.filename.endswith(".csv")`: None stands for
      no uploaded file. */
  predicate FileAccepted(filename: Option<string>) {
    filename.Some? && EndsWith(filename.value, ".csv")
  }

  /** What `int(float(text))` does: a value, a ValueError (text that float()
      does not read, or NaN), or an OverflowError (an infinity). */
  datatype ParseOutcome = Parsed(value: int) | ValueError | OverflowError

  /** `text.replace(",", "")`. */
  function RemoveCommas(s: string): (r: string)
    ensures forall i :: 0 <= i < |r| ==> r[i] != ','
  {
    var r := Filter(s, (c: char) => c != ',');
    FilterMembers(s, (c: char) => c != ',');
    assert forall i :: 0 <= i < |r| ==> r[i] in r;
    r
  }
}
