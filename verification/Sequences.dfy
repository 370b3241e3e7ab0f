/** Sequences without repetitions. */
module Sequences {

  ghost predicate Unrepeated<T>(s: seq<T>) { forall i, j :: 0 <= i < j < |s| ==> s[i] != s[j] }
}
