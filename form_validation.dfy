/**
 * `validateForm` of static/script.js: the BMI form may be submitted only when age, weight
 * and height are all filled in; otherwise the user is shown which of them are empty.
 *
 * The three input values are parameters, and the alert text is returned (None when no
 * alert is shown) instead of being displayed.
 */
module FormValidation {
  import opened Wrappers

  const Prompt: string := "Please fill out the following fields:\n"

  /** The field names in the order the form checks them. */
  const FieldOrder: seq<string> := ["Age", "Weight", "Height"]

  /** JavaScript's `Array.prototype.join(sep)`: the elements with `sep` between neighbours. */
  function Join(parts: seq<string>, sep: string): (r: string)
    ensures parts == [] ==> r == ""
    ensures |parts| == 1 ==> r == parts[0]
    ensures |parts| >= 2 ==> |r| >= |parts[0]| + |sep|
  {
    if |parts| == 0 then ""
    else if |parts| == 1 then parts[0]
    else parts[0] + sep + Join(parts[1..], sep)
  }

  /** The joined text starts with the first element and ends with the last one. */
  lemma {:induction false} JoinEnds(parts: seq<string>, sep: string)
    requires |parts| >= 1
    ensures |parts[0]| <= |Join(parts, sep)| && Join(parts, sep)[..|parts[0]|] == parts[0]
    ensures |parts[|parts| - 1]| <= |Join(parts, sep)|
    ensures Join(parts, sep)[|Join(parts, sep)| - |parts[|parts| - 1]|..] == parts[|parts| - 1]
  {
    if |parts| >= 2 {
      JoinEnds(parts[1..], sep);
      var r := Join(parts, sep);
      var tail := Join(parts[1..], sep);
      assert r == parts[0] + sep + tail;
      assert r[|r| - |tail|..] == tail;
    }
  }

  /** Cuts a string at every occurrence of `sep`; the inverse of joining with a one-character separator. */
  function Split(s: string, sep: char): (pieces: seq<string>)
    ensures |pieces| >= 1
  {
    if |s| == 0 then [""]
    else
      var rest := Split(s[1..], sep);
      if s[0] == sep then [""] + rest else [[s[0]] + rest[0]] + rest[1..]
  }

  /** Splitting a string without the separator leaves it whole. */
  lemma {:induction false} SplitWithout(s: string, sep: char)
    requires sep !in s
    ensures Split(s, sep) == [s]
  {
    if |s| > 0 {
      SplitWithout(s[1..], sep);
      assert [s[0]] + s[1..] == s;
    }
  }

  /** Splitting at a separator that follows a separator-free prefix cuts off exactly that prefix. */
  lemma {:induction false} SplitAfter(a: string, sep: char, b: string)
    requires sep !in a
    ensures Split(a + [sep] + b, sep) == [a] + Split(b, sep)
  {
    if |a| == 0 {
      assert a + [sep] + b == [sep] + b;
      assert ([sep] + b)[1..] == b;
    } else {
      SplitAfter(a[1..], sep, b);
      assert (a + [sep] + b)[1..] == a[1..] + [sep] + b;
      assert [a[0]] + a[1..] == a;
    }
  }

  /** Joining names with a one-character separator they do not contain, then splitting, gives the names back. */
  lemma {:induction false} SplitJoin(parts: seq<string>, sep: char)
    requires |parts| >= 1
    requires forall p :: p in parts ==> sep !in p
    ensures Split(Join(parts, [sep]), sep) == parts
  {
    if |parts| == 1 {
      SplitWithout(parts[0], sep);
    } else {
      assert parts[0] in parts;
      assert forall p :: p in parts[1..] ==> p in parts;
      SplitJoin(parts[1..], sep);
      SplitAfter(parts[0], sep, Join(parts[1..], [sep]));
      assert parts == [parts[0]] + parts[1..];
    }
  }

  /** No name is listed twice. */
  ghost predicate NoDuplicates(names: seq<string>)
  {
    forall i, j :: 0 <= i < j < |names| ==> names[i] != names[j]
  }

  /** The position of a field name in the form's checking order. */
  function Rank(name: string): int
  {
    if name == "Age" then 0 else if name == "Weight" then 1 else 2
  }

  /**
   * `validateForm`: true when no field is empty. Otherwise false, with the empty fields'
   * names pushed in the order age, weight, height, and the alert text: the prompt followed
   * by those names, one per line.
   */
  method ValidateForm(age: string, weight: string, height: string)
    returns (valid: bool, emptyFields: seq<string>, alert: Option<string>)
    ensures valid <==> age != "" && weight != "" && height != ""
    ensures forall name :: name in emptyFields <==>
      (name == "Age" && age == "") || (name == "Weight" && weight == "") || (name == "Height" && height == "")
    ensures NoDuplicates(emptyFields) && |emptyFields| <= 3
    ensures forall i, j :: 0 <= i < j < |emptyFields| ==> Rank(emptyFields[i]) < Rank(emptyFields[j])
    ensures valid ==> emptyFields == [] && alert == None
    ensures !valid ==> emptyFields != [] && alert == Some(Prompt + Join(emptyFields, "\n"))
    ensures !valid ==> alert.value[..|Prompt|] == Prompt && Split(alert.value[|Prompt|..], '\n') == emptyFields
  {
    if age == "" || weight == "" || height == "" {
      emptyFields := [];
      if age == "" {
        emptyFields := emptyFields + ["Age"];
      }
      if weight == "" {
        emptyFields := emptyFields + ["Weight"];
      }
      if height == "" {
        emptyFields := emptyFields + ["Height"];
      }
      alert := Some(Prompt + Join(emptyFields, "\n"));
      AlertLinesAreEmptyFields(emptyFields);
      assert alert.value[|Prompt|..] == Join(emptyFields, "\n");
      return false, emptyFields, alert;
    }
    return true, [], None;
  }

  /** The alert lists each empty field on a line of its own: the lines after the prompt are exactly the names. */
  lemma AlertLinesAreEmptyFields(emptyFields: seq<string>)
    requires |emptyFields| >= 1
    requires forall name :: name in emptyFields ==> name in FieldOrder
    ensures Split(Join(emptyFields, "\n"), '\n') == emptyFields
  {
    FieldNamesAreSingleLines();
    assert "\n" == ['\n'];
    SplitJoin(emptyFields, '\n');
  }

  /** No field name contains a line break. */
  lemma FieldNamesAreSingleLines()
    ensures forall name :: name in FieldOrder ==> '\n' !in name
  {
  }
}
