/**
  `findSheet` of the import script: the first candidate name, in the caller's
  order, for which some sheet of the workbook has the same name ignoring case;
  and the filter that picks every hour-meter sheet.
 */
module SheetLookup {
  import opened Wrappers
  import opened JsStrings
  import opened SeqUtils

  /** `a.toLowerCase() === b.toLowerCase()`. */
  predicate SameIgnoringCase(a: string, b: string) {
    ToLower(a) == ToLower(b)
  }

  /** The position `sheets.find(...)` stops at: the first sheet equal to `name` ignoring case, or `|sheets|`. */
  function FirstMatch(sheets: seq<string>, name: string): (k: nat)
    ensures k <= |sheets|
    ensures forall j :: 0 <= j < k ==> !SameIgnoringCase(sheets[j], name)
    ensures k < |sheets| ==> SameIgnoringCase(sheets[k], name)
  {
    if sheets == [] then 0
    else if SameIgnoringCase(sheets[0], name) then 0
    else 1 + FirstMatch(sheets[1..], name)
  }

  /** `sheets.find(sheet => sheet.toLowerCase() === name.toLowerCase())`. */
  function FindIgnoringCase(sheets: seq<string>, name: string): Option<string> {
    var k := FirstMatch(sheets, name);
    if k < |sheets| then Some(sheets[k]) else None
  }

  /** Some sheet has the name `name`, ignoring case. */
  predicate HasSheet(sheets: seq<string>, name: string) {
    exists k :: 0 <= k < |sheets| && SameIgnoringCase(sheets[k], name)
  }

  /**
    `findSheet(names)`: for each candidate in turn, the sheet found for it, when
    that sheet's name is truthy (not empty); null when no candidate yields one.
   */
  function FindSheet(sheets: seq<string>, names: seq<string>): (r: Option<string>)
    ensures r.Some? ==> r.value in sheets && r.value != ""
  {
    if names == [] then None
    else match FindIgnoringCase(sheets, names[0])
      case Some(found) =>
        if found != "" then Some(found) else FindSheet(sheets, names[1..])
      case None => FindSheet(sheets, names[1..])
  }

  /** Names equal ignoring case have the same length, so a non-empty candidate only finds a non-empty sheet. */
  lemma FoundNotEmpty(sheets: seq<string>, name: string)
    requires name != ""
    ensures FindIgnoringCase(sheets, name).Some? ==> FindIgnoringCase(sheets, name).value != ""
  {
    var k := FirstMatch(sheets, name);
    if k < |sheets| {
      assert |ToLower(sheets[k])| == |ToLower(name)|;
    }
  }

  /**
    For non-empty candidates (every list the script passes), the result is the
    workbook's own name of the first sheet matching the first candidate, in list
    order, that some sheet matches; and null exactly when no candidate matches.
   */
  lemma {:induction false} FindSheetFirstCandidate(sheets: seq<string>, names: seq<string>)
    requires forall i :: 0 <= i < |names| ==> names[i] != ""
    ensures FindSheet(sheets, names).None? <==> forall i :: 0 <= i < |names| ==> !HasSheet(sheets, names[i])
    ensures FindSheet(sheets, names).Some? ==>
              exists i :: 0 <= i < |names| && HasSheet(sheets, names[i])
                          && (forall j :: 0 <= j < i ==> !HasSheet(sheets, names[j]))
                          && FindSheet(sheets, names).value == sheets[FirstMatch(sheets, names[i])]
  {
    if names != [] {
      var k := FirstMatch(sheets, names[0]);
      FoundNotEmpty(sheets, names[0]);
      if k < |sheets| {
        assert HasSheet(sheets, names[0]);
        assert FindSheet(sheets, names) == Some(sheets[k]);
      } else {
        assert !HasSheet(sheets, names[0]);
        FindSheetFirstCandidate(sheets, names[1..]);
        assert FindSheet(sheets, names) == FindSheet(sheets, names[1..]);
        if FindSheet(sheets, names).Some? {
          var i :| 0 <= i < |names[1..]| && HasSheet(sheets, names[1..][i])
                   && (forall j :: 0 <= j < i ==> !HasSheet(sheets, names[1..][j]))
                   && FindSheet(sheets, names[1..]).value == sheets[FirstMatch(sheets, names[1..][i])];
          assert names[i + 1] == names[1..][i];
          forall j | 0 <= j < i + 1 ensures !HasSheet(sheets, names[j]) {
            if j > 0 {
              assert names[j] == names[1..][j - 1];
            }
          }
        }
        if forall i :: 0 <= i < |names[1..]| ==> !HasSheet(sheets, names[1..][i]) {
          forall i | 0 <= i < |names| ensures !HasSheet(sheets, names[i]) {
            if i > 0 {
              assert names[i] == names[1..][i - 1];
            }
          }
        }
      }
    }
  }

  /** The test `processHorimetros` applies to a sheet name. */
  predicate IsHorimetroSheet(name: string) {
    Contains(ToLower(name), "horimetro") || Contains(ToLower(name), "horímetro")
  }

  /** The hour-meter sheets, in workbook order. */
  function HorimetroSheets(sheets: seq<string>): (r: seq<string>)
    ensures |r| <= |sheets|
    ensures forall i :: 0 <= i < |r| ==> IsHorimetroSheet(r[i])
  {
    Filter(sheets, IsHorimetroSheet)
  }

  /** The hour-meter sheets are exactly the workbook's sheets that pass the test, in workbook order. */
  lemma HorimetroSheetsExactly(sheets: seq<string>)
    ensures forall n :: n in HorimetroSheets(sheets) <==> n in sheets && IsHorimetroSheet(n)
    ensures IsSubsequence(HorimetroSheets(sheets), sheets)
  {
    forall n ensures n in HorimetroSheets(sheets) <==> n in sheets && IsHorimetroSheet(n) {
      FilterMembers(sheets, IsHorimetroSheet, n);
    }
    FilterSubsequence(sheets, IsHorimetroSheet);
  }
}
