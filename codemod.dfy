/** The one-off codemod script: a global regular-expression replacement that drops an
    intersection type from a destructured parameter list, applied to every `.jsx` file of a
    directory tree. */
module Codemod {
  import opened Seqs
  import opened Text

  const Marker := "} & {"
  const Closing := "}) {"

  /** A match of `/\} & \{[^}]*\}\) \{/` at the start of `s`, `m` characters long: the marker,
      then characters other than `}`, then the closing `}) {`. */
  predicate PatternAt(s: string, m: nat)
  {
    && 9 <= m <= |s|
    && s[..5] == Marker
    && s[m - 4..m] == Closing
    && forall k | 5 <= k < m - 4 :: s[k] != '}'
  }

  /** The first `}` at or after `from`, if any. */
  function FirstClose(s: string, from: nat): (r: Option<nat>)
    ensures r.Some? ==> from <= r.value < |s| && s[r.value] == '}'
                        && forall k | from <= k < r.value :: s[k] != '}'
    ensures r.None? ==> forall k | from <= k < |s| :: s[k] != '}'
    decreases |s| - from
  {
    if from >= |s| then None
    else if s[from] == '}' then Some(from)
    else FirstClose(s, from + 1)
  }

  /** The length of the match at the start of `s`. Since `[^}]*` cannot pass a `}`, the closing
      brace must be the first one after the marker, so there is at most one match, and this finds
      it whenever there is one. */
  function MatchLength(s: string): (r: Option<nat>)
    ensures forall m: nat :: PatternAt(s, m) <==> r == Some(m)
  {
    assert forall m: nat | PatternAt(s, m) :: s[m - 4] == s[m - 4..m][0] == '}';
    if |s| < 5 || s[..5] != Marker then None
    else match FirstClose(s, 5)
      case None => None
      case Some(j) => if j + 4 <= |s| && s[j..j + 4] == Closing then Some(j + 4) else None
  }

  /** `content.replace(/\} & \{[^}]*\}\) \{/g, '}) {')`: scanning from the left, each match is
      replaced by `}) {` and the scan resumes after it; other characters are copied. */
  function Rewrite(s: string): string
    decreases |s|
  {
    if s == [] then []
    else match MatchLength(s)
      case Some(m) => Closing + Rewrite(s[m..])
      case None => [s[0]] + Rewrite(s[1..])
  }

  /** The number of replacements `Rewrite` makes. */
  function Matches(s: string): nat
    decreases |s|
  {
    if s == [] then 0
    else match MatchLength(s)
      case Some(m) => 1 + Matches(s[m..])
      case None => Matches(s[1..])
  }

  /** Each replacement removes at least five characters. */
  lemma {:induction false} RewriteLength(s: string)
    ensures |Rewrite(s)| + 5 * Matches(s) <= |s|
    decreases |s|
  {
    if s != [] {
      match MatchLength(s)
      case Some(m) => RewriteLength(s[m..]);
      case None => RewriteLength(s[1..]);
    }
  }

  /** Text without a match comes back unchanged. */
  lemma {:induction false} NoMatchUnchanged(s: string)
    requires Matches(s) == 0
    ensures Rewrite(s) == s
    decreases |s|
  {
    if s != [] {
      NoMatchUnchanged(s[1..]);
    }
  }

  /** The rewrite shortens a file exactly when it replaced something. */
  lemma ShorterExactly(s: string)
    ensures |Rewrite(s)| < |s| <==> Matches(s) > 0
  {
    RewriteLength(s);
    if Matches(s) == 0 {
      NoMatchUnchanged(s);
    }
  }

  /** Text in which the marker `} & {` never occurs has no match. */
  lemma {:induction false} NoMarkerNoMatch(s: string)
    requires !Contains(s, Marker)
    ensures Matches(s) == 0
    decreases |s|
  {
    if s != [] {
      if MatchLength(s).Some? {
        assert PatternAt(s, MatchLength(s).value);
        assert OccursAt(s, Marker, 0);
        assert false;
      }
      if Contains(s[1..], Marker) {
        var i: nat :| i <= |s[1..]| - |Marker| && OccursAt(s[1..], Marker, i);
        assert s[i + 1..i + 1 + |Marker|] == s[1..][i..i + |Marker|];
        assert OccursAt(s, Marker, i + 1);
        assert false;
      }
      NoMarkerNoMatch(s[1..]);
    }
  }

  /** The intersection the script was written for is dropped from a parameter list. */
  lemma RewriteExample()
    ensures Rewrite("({} & {}) {") == "({}) {"
  {
    var s := "({} & {}) {";
    assert s[2..][..5] == Marker && s[2..][5..9] == Closing;
    assert PatternAt(s[2..], 9);
    assert s[2..][9..] == [];
    assert MatchLength(s) == None;
    assert MatchLength(s[1..]) == None;
  }

  /** A directory entry: a file with its text, or a directory with its entries in listing order. */
  datatype Entry = File(name: string, content: string) | Dir(name: string, entries: seq<Entry>)

  /** `file.endsWith('.jsx')`. */
  predicate IsJsx(name: string)
  {
    |name| >= 4 && name[|name| - 4..] == ".jsx"
  }

  /** An entry after the walk: a `.jsx` file rewritten, a directory walked, any other file as it
      was; names and kinds never change. */
  function FixEntry(e: Entry): (r: Entry)
    ensures r.name == e.name && r.Dir? == e.Dir?
    ensures e.File? && IsJsx(e.name) ==> r.content == Rewrite(e.content)
    ensures e.File? && !IsJsx(e.name) ==> r == e
    ensures e.Dir? ==> |r.entries| == |e.entries|
    decreases e
  {
    match e
    case File(name, content) => if IsJsx(name) then File(name, Rewrite(content)) else e
    case Dir(name, entries) => Dir(name, FixAll(entries))
  }

  function FixAll(es: seq<Entry>): (r: seq<Entry>)
    ensures |r| == |es|
    decreases es
  {
    seq(|es|, i requires 0 <= i < |es| => FixEntry(es[i]))
  }

  /** No file under the entry has a match. */
  predicate Clean(e: Entry)
    decreases e
  {
    match e
    case File(name, content) => !IsJsx(name) || Matches(content) == 0
    case Dir(_, entries) => forall i | 0 <= i < |entries| :: Clean(entries[i])
  }

  /** A tree with nothing to replace comes through the walk unchanged. */
  lemma {:induction false} CleanUnchanged(es: seq<Entry>)
    requires forall i | 0 <= i < |es| :: Clean(es[i])
    ensures FixAll(es) == es
    decreases es
  {
    forall i | 0 <= i < |es| ensures FixEntry(es[i]) == es[i] {
      match es[i]
      case File(_, content) =>
        if IsJsx(es[i].name) {
          NoMatchUnchanged(content);
        }
      case Dir(_, entries) =>
        CleanUnchanged(entries);
    }
  }

  /** `walkDir(dir)`: each entry of a directory in listing order, recursing into directories and
      rewriting `.jsx` files. The writes are returned as the new directory. */
  method WalkDir(dir: Entry) returns (fixed: Entry)
    requires dir.Dir?
    ensures fixed == FixEntry(dir)
    decreases dir
  {
    var entries := dir.entries;
    var done: seq<Entry> := [];
    var i := 0;
    while i < |entries|
      invariant 0 <= i <= |entries|
      invariant done == FixAll(entries[..i])
    {
      var e := entries[i];
      if e.Dir? {
        var sub := WalkDir(e);
        done := done + [sub];
      } else if IsJsx(e.name) {
        done := done + [File(e.name, Rewrite(e.content))];
      } else {
        done := done + [e];
      }
      i := i + 1;
    }
    assert entries[..i] == entries;
    fixed := Dir(dir.name, done);
  }
}
