/** `read_permissions`: one permission per data row of the permission table, classified by
    its protection-level text, followed by the fixed list of dangerous permission groups. */
module Permissions {
  import opened Wrappers
  import opened Text
  import opened Csv

  /** The three protection levels the reader assigns. */
  datatype Level = Normal | Signature | Dangerous
  {
    /** The string the source stores in `protection_level`. */
    function Label(): string
    {
      match this
      case Normal => "normal"
      case Signature => "signature"
      case Dangerous => "dangerous"
    }
  }

  /** `Permission` has no equality of its own in the source, so two records with the same
      fields are still two members of the result; the model keeps them as a sequence. */
  datatype Permission = Permission(name: string, level: Level, isGroup: bool)

  /** The permission groups the reader adds after the rows, in this order. */
  const GroupPermissionNames: seq<string> :=
    ["ACTIVITY_RECOGNITION", "CALENDAR", "CALL_LOG", "CAMERA", "CONTACTS", "LOCATION",
     "MICROPHONE", "PHONE", "SENSORS", "SMS", "STORAGE"]

  /** Indexing a row that has no cell 0 or no cell 2; `row` is the row's position in the
      file, the header being row 0. */
  datatype ReadError = IndexError(row: nat)

  /** The protection level of a row whose level column reads `description`: "dangerous" is
      looked for first, so it wins over "signature"; the search ignores case. */
  function Classify(description: string): (level: Level)
    ensures level == Dangerous <==> Occurs("dangerous", Lower(description))
    ensures level == Signature <==>
      !Occurs("dangerous", Lower(description)) && Occurs("signature", Lower(description))
    ensures level == Normal <==>
      !Occurs("dangerous", Lower(description)) && !Occurs("signature", Lower(description))
    ensures level.Label() in {"dangerous", "signature", "normal"}
  {
    if Contains(Lower(description), "dangerous") then Dangerous
    else if Contains(Lower(description), "signature") then Signature
    else Normal
  }

  /** The permission built from one data row with at least three cells. */
  function RowPermission(row: Row): Permission
    requires |row| >= 3
  {
    Permission(Strip(row[0]), Classify(row[2]), false)
  }

  /** The loop over the data rows `data`, the first of which is file row `first`: one
      permission per row, in order, stopping at the first row with fewer than three cells. */
  function ReadRows(data: seq<Row>, first: nat): (r: Result<seq<Permission>, ReadError>)
    ensures r.Success? <==> forall k :: 0 <= k < |data| ==> |data[k]| >= 3
    ensures r.Failure? ==>
      && first <= r.error.row < first + |data|
      && |data[r.error.row - first]| < 3
      && forall k :: 0 <= k < r.error.row - first ==> |data[k]| >= 3
    ensures r.Success? ==>
      && |r.value| == |data|
      && forall k :: 0 <= k < |data| ==> |data[k]| >= 3 && r.value[k] == RowPermission(data[k])
    decreases |data|
  {
    if |data| == 0 then
      Success([])
    else if |data[0]| < 3 then
      Failure(IndexError(first))
    else
      match ReadRows(data[1..], first + 1)
      case Failure(e) => Failure(e)
      case Success(ps) => Success([RowPermission(data[0])] + ps)
  }

  /** The fixed group permissions, each dangerous and marked as a group. */
  function GroupPermissions(): (gs: seq<Permission>)
    ensures |gs| == |GroupPermissionNames|
    ensures forall j :: 0 <= j < |gs| ==> gs[j] == Permission(GroupPermissionNames[j], Dangerous, true)
  {
    seq(|GroupPermissionNames|, j requires 0 <= j < |GroupPermissionNames| =>
      Permission(GroupPermissionNames[j], Dangerous, true))
  }

  /** `read_permissions` on the rows of the permission file. */
  function ReadPermissions(rows: seq<Row>): (r: Result<seq<Permission>, ReadError>)
    ensures r.Success? <==> forall k :: 1 <= k < |rows| ==> |rows[k]| >= 3
    ensures r.Failure? ==>
      && 1 <= r.error.row < |rows|
      && |rows[r.error.row]| < 3
      && forall k :: 1 <= k < r.error.row ==> |rows[k]| >= 3
    ensures r.Success? ==> |r.value| == |DataRows(rows)| + 11
    ensures r.Success? ==> forall k :: 1 <= k < |rows| ==>
      && |rows[k]| >= 3
      && r.value[k - 1].name == Strip(rows[k][0])
      && r.value[k - 1].level == Classify(rows[k][2])
      && !r.value[k - 1].isGroup
    ensures r.Success? ==> forall j :: 0 <= j < 11 ==>
      r.value[|DataRows(rows)| + j] == Permission(GroupPermissionNames[j], Dangerous, true)
  {
    match ReadRows(DataRows(rows), 1)
    case Failure(e) => Failure(e)
    case Success(ps) => Success(ps + GroupPermissions())
  }

  /** The names of `ps`, in order. */
  function Names(ps: seq<Permission>): seq<string>
  {
    seq(|ps|, k requires 0 <= k < |ps| => ps[k].name)
  }

  /** The stripped cell 0 of each data row, in file order. */
  function RowNames(data: seq<Row>): seq<string>
  {
    seq(|data|, k requires 0 <= k < |data| => Strip(Cell(data[k], 0)))
  }

  /** The names of a successful result: the stripped cell 0 of each data row, in file
      order, then the group names. */
  lemma ResultNames(rows: seq<Row>)
    requires ReadPermissions(rows).Success?
    ensures Names(ReadPermissions(rows).value) == RowNames(DataRows(rows)) + GroupPermissionNames
  {
    var data := DataRows(rows);
    var stripped := RowNames(data);
    var ps := ReadPermissions(rows).value;
    var names := Names(ps);
    forall k | 0 <= k < |data| ensures names[k] == stripped[k] {
      assert data[k] == rows[k + 1];
    }
    forall j | 0 <= j < 11 ensures names[|data| + j] == GroupPermissionNames[j] {
      assert ps[|data| + j] == Permission(GroupPermissionNames[j], Dangerous, true);
    }
    assert names == stripped + GroupPermissionNames;
  }

  /** Nothing is merged: a name occurs in the result once for every data row that strips to
      it plus once for every group of that name, so a row named like a group (CAMERA, say)
      leaves two members. */
  lemma NoDeduplication(rows: seq<Row>, name: string)
    requires ReadPermissions(rows).Success?
    ensures multiset(Names(ReadPermissions(rows).value))[name] ==
      multiset(RowNames(DataRows(rows)))[name] + multiset(GroupPermissionNames)[name]
  {
    var stripped := RowNames(DataRows(rows));
    ResultNames(rows);
    assert multiset(stripped + GroupPermissionNames) == multiset(stripped) + multiset(GroupPermissionNames);
  }

  /** The header row never contributes a permission: whatever it holds, the result is the same. */
  lemma HeaderRowIgnored(h1: Row, h2: Row, data: seq<Row>)
    ensures ReadPermissions([h1] + data) == ReadPermissions([h2] + data)
  {
    HeaderIgnored(h1, h2, data);
  }

  /** A pattern holding a character that `s` lacks does not occur in `s`. */
  lemma MissingCharacter(pat: string, s: string, c: char)
    requires c in pat && c !in s
    ensures !Occurs(pat, s)
  {
    var j :| 0 <= j < |pat| && pat[j] == c;
    forall i | 0 <= i <= |s| ensures !(pat <= s[i..]) {
      if i + j < |s| {
        assert s[i..][j] == s[i + j] != c;
      }
    }
  }

  /** Protection levels of the two example descriptions. */
  lemma ExampleLevels()
    ensures Classify("dangerous permission") == Dangerous
    ensures Classify("normal level") == Normal
  {
    assert "dangerous" <= Lower("dangerous permission")[0..];
    var low := Lower("normal level");
    assert low == "normal level";
    MissingCharacter("dangerous", low, 'd');
    MissingCharacter("signature", low, 'g');
  }

  /** A name that neither starts nor ends with whitespace strips to itself. */
  lemma StripUnpadded(s: string)
    requires s != "" && !IsSpace(s[0]) && !IsSpace(s[|s| - 1])
    ensures Strip(s) == s
  {
    assert StrippedAt(s, 0, s);
    StripsToUnique(s, Strip(s), s);
  }

  /** The example's names carry no padding. */
  lemma ExampleNames()
    ensures Strip("CAMERA") == "CAMERA"
    ensures Strip("SEND_SMS") == "SEND_SMS"
  {
    StripUnpadded("CAMERA");
    StripUnpadded("SEND_SMS");
  }

  /** Group `j` sits `j` places after the last row-derived permission. */
  lemma GroupTail(rows: seq<Row>, j: nat)
    requires ReadPermissions(rows).Success? && j < 11
    ensures ReadPermissions(rows).value[|DataRows(rows)| + j] ==
      Permission(GroupPermissionNames[j], Dangerous, true)
  {
  }

  /** The rows of the two-row example: a header, a CAMERA row described as dangerous and a
      SEND_SMS row described as normal. */
  predicate IsCameraExample(rows: seq<Row>)
  {
    rows == [["header", "ignored", "ignored"],
             ["CAMERA", "x", "dangerous permission"],
             ["SEND_SMS", "x", "normal level"]]
  }

  /** The example's two rows become the first two permissions. */
  lemma CameraExampleRows(rows: seq<Row>)
    requires IsCameraExample(rows)
    ensures ReadPermissions(rows).Success?
    ensures ReadPermissions(rows).value[0] == Permission("CAMERA", Dangerous, false)
    ensures ReadPermissions(rows).value[1] == Permission("SEND_SMS", Normal, false)
  {
    assert |rows| == 3 && |rows[1]| == 3 && |rows[2]| == 3;
    var r := ReadPermissions(rows);
    assert r.value[0] == Permission("CAMERA", Dangerous, false) by {
      assert rows[1][0] == "CAMERA" && rows[1][2] == "dangerous permission";
      ExampleNames();
      ExampleLevels();
    }
    assert r.value[1] == Permission("SEND_SMS", Normal, false) by {
      assert rows[2][0] == "SEND_SMS" && rows[2][2] == "normal level";
      ExampleNames();
      ExampleLevels();
    }
  }

  /** The example yields thirteen permissions, and CAMERA is among them twice: once from its
      row (CameraExampleRows) and once as a group. */
  lemma CameraExample(rows: seq<Row>)
    requires IsCameraExample(rows)
    ensures ReadPermissions(rows).Success?
    ensures |ReadPermissions(rows).value| == 13
    ensures ReadPermissions(rows).value[5] == Permission("CAMERA", Dangerous, true)
  {
    assert |rows| == 3 && |rows[1]| == 3 && |rows[2]| == 3;
    assert |DataRows(rows)| == 2;
    GroupTail(rows, 3);
    assert GroupPermissionNames[3] == "CAMERA";
  }
}
