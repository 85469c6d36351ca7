/**
 * The output-directory naming convention shared by the two training drivers:
 * `<model>_<dataset>_<n1>_<n2>_..._<batch size>`, optionally followed by `_logit`
 * and then `_ctd`. `ParseDirname` reads the numbers and flags back out of a name.
 */
module DirNames {
  import opened Wrappers
  import opened PathStrings

  /** `prefix + '_' + str(f1) + '_' + ... + '_' + str(fn)`. */
  function Fields(prefix: string, fields: seq<int>): string
    decreases |fields|
  {
    if |fields| == 0 then prefix
    else Fields(prefix, fields[..|fields| - 1]) + "_" + IntToString(fields[|fields| - 1])
  }

  /** The directory name before any path is joined to it. */
  function Dirname(model: string, dataset: string, fields: seq<int>, useLogit: bool, restoring: bool): string {
    Fields(model + "_" + dataset, fields) + (if useLogit then "_logit" else "") + (if restoring then "_ctd" else "")
  }

  datatype DirnameParts = DirnameParts(prefix: string, fields: seq<int>, useLogit: bool, restoring: bool)

  /** Peels `n` numeric fields off the right. */
  function ParseFields(s: string, n: nat): Option<(string, seq<int>)>
    decreases n
  {
    if n == 0 then Some((s, []))
    else match SplitLastField(s)
      case None => None
      case Some(parts) =>
        match ParseInt(parts.1)
        case None => None
        case Some(v) =>
          match ParseFields(parts.0, n - 1)
          case None => None
          case Some(rest) => Some((rest.0, rest.1 + [v]))
  }

  function DropSuffix(s: string, suffix: string): string
    requires EndsWith(s, suffix)
  {
    s[..|s| - |suffix|]
  }

  /** Reads a directory name with `n` numeric fields back into its parts. */
  function ParseDirname(d: string, n: nat): Option<DirnameParts> {
    var restoring := EndsWith(d, "_ctd");
    var d1 := if restoring then DropSuffix(d, "_ctd") else d;
    var useLogit := EndsWith(d1, "_logit");
    var d2 := if useLogit then DropSuffix(d1, "_logit") else d1;
    match ParseFields(d2, n)
    case None => None
    case Some(r) => Some(DirnameParts(r.0, r.1, useLogit, restoring))
  }

  lemma {:induction false} FieldsRoundTrip(prefix: string, fields: seq<int>)
    ensures ParseFields(Fields(prefix, fields), |fields|) == Some((prefix, fields))
    decreases |fields|
  {
    if |fields| > 0 {
      var n := |fields|;
      var init := fields[..n - 1];
      var v := fields[n - 1];
      var last := IntToString(v);
      assert '_' !in last by {
        forall i | 0 <= i < |last| ensures last[i] != '_' { }
      }
      var head := Fields(prefix, init);
      assert Fields(prefix, fields) == head + "_" + last;
      SplitLastFieldOfJoin(head, last);
      IntRoundTrip(v);
      FieldsRoundTrip(prefix, init);
      ParseFieldsStep(head + "_" + last, n, head, last, v, prefix, init);
      InitAndLast(fields);
    }
  }

  lemma InitAndLast(xs: seq<int>)
    requires |xs| > 0
    ensures xs[..|xs| - 1] + [xs[|xs| - 1]] == xs
  {
  }

  /** One field peeled off, given how the last field splits and parses. */
  lemma ParseFieldsStep(s: string, n: nat, head: string, last: string, v: int, prefix: string, init: seq<int>)
    requires n > 0 && SplitLastField(s) == Some((head, last)) && ParseInt(last) == Some(v)
    requires ParseFields(head, n - 1) == Some((prefix, init))
    ensures ParseFields(s, n) == Some((prefix, init + [v]))
  {
  }

  /** A name with at least one field ends in a digit. */
  lemma FieldsEndInDigit(prefix: string, fields: seq<int>)
    requires |fields| > 0
    ensures var s := Fields(prefix, fields); |s| > 0 && IsDigit(s[|s| - 1])
  {
  }

  /** Every configuration is recovered from its directory name: the name determines the
      numeric fields, the logit flag and the restore flag. */
  lemma DirnameRoundTrip(model: string, dataset: string, fields: seq<int>, useLogit: bool, restoring: bool)
    requires |fields| > 0
    ensures ParseDirname(Dirname(model, dataset, fields, useLogit, restoring), |fields|)
      == Some(DirnameParts(model + "_" + dataset, fields, useLogit, restoring))
  {
    var base := Fields(model + "_" + dataset, fields);
    FieldsEndInDigit(model + "_" + dataset, fields);
    FieldsRoundTrip(model + "_" + dataset, fields);
    var d1 := base + (if useLogit then "_logit" else "");
    var d := d1 + (if restoring then "_ctd" else "");
    assert d == Dirname(model, dataset, fields, useLogit, restoring);
    if restoring {
      assert EndsWith(d, "_ctd") && DropSuffix(d, "_ctd") == d1;
    } else {
      assert d == d1;
      assert d1[|d1| - 1] != 'd';
    }
    if useLogit {
      assert EndsWith(d1, "_logit") && DropSuffix(d1, "_logit") == base;
    } else {
      assert d1 == base;
    }
  }

  /** The `_ctd` suffix marks exactly the restored runs; without it, `_logit` marks exactly
      the runs on logit-preprocessed data. */
  lemma DirnameSuffixes(model: string, dataset: string, fields: seq<int>, useLogit: bool, restoring: bool)
    requires |fields| > 0
    ensures var d := Dirname(model, dataset, fields, useLogit, restoring);
      && (EndsWith(d, "_ctd") <==> restoring)
      && (!restoring ==> (EndsWith(d, "_logit") <==> useLogit))
  {
    DirnameRoundTrip(model, dataset, fields, useLogit, restoring);
  }

  lemma {:induction false} FieldsLength(prefix: string, fields: seq<int>)
    ensures |Fields(prefix, fields)| >= |prefix| + 2 * |fields|
    decreases |fields|
  {
    if |fields| > 0 {
      FieldsLength(prefix, fields[..|fields| - 1]);
    }
  }

  lemma DirnameHasNoSeparator(model: string, dataset: string, fields: seq<int>, useLogit: bool, restoring: bool)
    requires '/' !in model && '/' !in dataset
    ensures '/' !in Dirname(model, dataset, fields, useLogit, restoring)
  {
    FieldsHaveNoSeparator(model + "_" + dataset, fields);
  }

  lemma {:induction false} FieldsHaveNoSeparator(prefix: string, fields: seq<int>)
    requires '/' !in prefix
    ensures '/' !in Fields(prefix, fields)
    decreases |fields|
  {
    if |fields| > 0 {
      FieldsHaveNoSeparator(prefix, fields[..|fields| - 1]);
      var last := IntToString(fields[|fields| - 1]);
      assert '/' !in last by {
        forall i | 0 <= i < |last| ensures last[i] != '/' { }
      }
    }
  }
}
