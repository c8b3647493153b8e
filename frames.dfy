/** Abstract model of the tabular record sets (pandas DataFrames) the pipeline
    works on, and of the errors its steps raise. */
module Frames {

  type Column = string

  /** A cell. NoValue is the missing-value marker an outer concatenation
      writes where a record set had no such column. */
  datatype Value = Num(n: int) | Text(s: string) | NoValue

  type Row = map<Column, Value>

  /** One row together with its index label (pandas keeps one per row). */
  datatype Record = Record(index: int, cells: Row)

  /** A record set: an ordered list of column names and an ordered list of rows. */
  datatype Frame = Frame(columns: seq<Column>, records: seq<Record>)

  /** The input of a transform: one record set, or a list of them. */
  datatype Data = Single(frame: Frame) | Many(frames: seq<Frame>)

  /** The exceptions the modelled code raises. */
  datatype Error =
    | MissingColumns(absent: seq<Column>)   // KeyError from df[columns]
    | MissingVolume                          // KeyError from df["volume"]
    | VolumeNotComparable                   // TypeError from comparing text with the threshold
    | NotAList                               // TypeError: concat of a single record set
    | InvalidJoin(join: string)              // ValueError: join other than inner/outer
    | NoObjectsToConcatenate                 // ValueError: concat of an empty list
    | InvalidParams(step: string)            // TypeError: constructor keyword mismatch
    | PipelineNotBuilt                       // RuntimeError from apply

  datatype Option<T> = None | Some(value: T)

  datatype Result<T> = Ok(value: T) | Err(error: Error)

  function ColumnSet(f: Frame): set<Column> {
    set c | c in f.columns
  }

  /** Every row has exactly the frame's columns (the shape every DataFrame has). */
  predicate WellFormed(f: Frame) {
    forall i :: 0 <= i < |f.records| ==> f.records[i].cells.Keys == ColumnSet(f)
  }

  predicate AllWellFormed(fs: seq<Frame>) {
    forall k :: 0 <= k < |fs| ==> WellFormed(fs[k])
  }

  predicate ValidData(d: Data) {
    match d
    case Single(f) => WellFormed(f)
    case Many(fs) => AllWellFormed(fs)
  }

  predicate Distinct(s: seq<Column>) {
    forall i, j :: 0 <= i < j < |s| ==> s[i] != s[j]
  }

  /** The elements of s, each once, in order of first occurrence (pandas' unique()). */
  function Dedup(s: seq<Column>): (r: seq<Column>)
    ensures forall x :: x in r <==> x in s
    ensures Distinct(r)
  {
    if s == [] then []
    else
      var d := Dedup(s[..|s| - 1]);
      assert s == s[..|s| - 1] + [s[|s| - 1]];
      if s[|s| - 1] in d then d else d + [s[|s| - 1]]
  }

  /** Keeping first occurrences of a + b starts with those of a; the rest are new to a. */
  lemma {:induction false} DedupPrefix(a: seq<Column>, b: seq<Column>)
    ensures Dedup(a) <= Dedup(a + b)
    ensures forall i :: |Dedup(a)| <= i < |Dedup(a + b)| ==> Dedup(a + b)[i] !in a
  {
    if b == [] {
      assert a + b == a;
    } else {
      var init := b[..|b| - 1];
      DedupPrefix(a, init);
      assert (a + b)[..|a + b| - 1] == a + init;
      assert (a + b)[|a + b| - 1] == b[|b| - 1];
    }
  }
}
