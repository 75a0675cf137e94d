/**
 * The pure and locally stateful pieces of the deployment script: logical names, template
 * merging, the YAML front matter of a Lambda function file, the policy list of a function,
 * the rewriting of a state machine definition, and the stack status decisions.
 */
module Fabfile {
  import opened Wrappers
  import opened Text
  import Json

  datatype Failure =
    | EmptyComponent    // `i[0]` on an empty name component raises IndexError
    | NoFrontMatter     // `len(None)` raises TypeError
    | NotSearchable     // `in` on a number or boolean raises TypeError
    | NoAppend          // `.append` on a string or dictionary raises AttributeError

  // ---------------------------------------------------------------------------------------------
  // to_camel_case

  predicate IsSeparator(c: char) {
    c == '-' || c == '_'
  }

  predicate NoSeparator(s: string) {
    forall i :: 0 <= i < |s| ==> !IsSeparator(s[i])
  }

  /** `s.replace('-', '_').split('_')`: the name components between separators. */
  function Components(s: string): (parts: seq<string>)
    ensures |parts| >= 1
    ensures forall i :: 0 <= i < |parts| ==> NoSeparator(parts[i])
    decreases |s|
  {
    if s == [] then [""]
    else if IsSeparator(s[0]) then [""] + Components(s[1..])
    else
      var rest := Components(s[1..]);
      [[s[0]] + rest[0]] + rest[1..]
  }

  /** `'_'.join(parts)` */
  function JoinUnderscore(parts: seq<string>): string
    requires |parts| >= 1
    decreases |parts|
  {
    if |parts| == 1 then parts[0] else parts[0] + "_" + JoinUnderscore(parts[1..])
  }

  /** `s.replace('-', '_')` */
  function Underscored(s: string): (r: string)
    ensures |r| == |s|
    ensures forall i :: 0 <= i < |s| ==> r[i] == if s[i] == '-' then '_' else s[i]
  {
    seq(|s|, i requires 0 <= i < |s| => if s[i] == '-' then '_' else s[i])
  }

  /** Splitting and joining again gives back the name, with every separator written as `_`. */
  lemma {:induction false} JoinComponents(s: string)
    ensures JoinUnderscore(Components(s)) == Underscored(s)
    decreases |s|
  {
    if s != [] {
      JoinComponents(s[1..]);
      UnderscoredCons(s);
      var rest := Components(s[1..]);
      if IsSeparator(s[0]) {
        JoinAfterEmpty(rest);
      } else {
        JoinAfterLetter(s[0], rest);
      }
    }
  }

  lemma UnderscoredCons(s: string)
    requires s != ""
    ensures Underscored(s) == [if s[0] == '-' then '_' else s[0]] + Underscored(s[1..])
  {
  }

  /** An empty first component contributes only its separator. */
  lemma JoinAfterEmpty(parts: seq<string>)
    requires |parts| >= 1
    ensures JoinUnderscore([""] + parts) == "_" + JoinUnderscore(parts)
  {
    assert ([""] + parts)[1..] == parts;
  }

  /** Joining a component in front of at least one more puts it and a separator first. */
  lemma JoinCons(head: string, rest: seq<string>)
    requires |rest| >= 1
    ensures JoinUnderscore([head] + rest) == head + "_" + JoinUnderscore(rest)
  {
    assert ([head] + rest)[1..] == rest;
  }

  /** A letter in front of the first component comes first in the joined name. */
  lemma JoinAfterLetter(c: char, parts: seq<string>)
    requires |parts| >= 1
    ensures JoinUnderscore([[c] + parts[0]] + parts[1..]) == [c] + JoinUnderscore(parts)
  {
    var head, rest := parts[0], parts[1..];
    assert parts == [head] + rest;
    if rest == [] {
      assert [[c] + head] + rest == [[c] + head];
    } else {
      JoinLetterCons(c, head, rest);
    }
  }

  lemma JoinLetterCons(c: char, head: string, rest: seq<string>)
    requires |rest| >= 1
    ensures JoinUnderscore([[c] + head] + rest) == [c] + JoinUnderscore([head] + rest)
  {
    JoinCons([c] + head, rest);
    JoinCons(head, rest);
    AppendAssoc([c], head, "_" + JoinUnderscore(rest));
  }

  /** Some component of the name is empty. */
  predicate HasEmptyComponent(s: string) {
    exists i :: 0 <= i < |Components(s)| && Components(s)[i] == ""
  }

  /** Some component after the first is empty. */
  predicate HasEmptyLaterComponent(s: string) {
    exists i :: 1 <= i < |Components(s)| && Components(s)[i] == ""
  }

  /** Two separators stand next to each other. */
  predicate HasAdjacentSeparators(s: string) {
    exists i :: 0 <= i < |s| - 1 && IsSeparator(s[i]) && IsSeparator(s[i + 1])
  }

  predicate EndsWithSeparator(s: string) {
    s != "" && IsSeparator(s[|s| - 1])
  }

  /** A name has an empty component exactly when it is empty, starts or ends with a separator, or has two in a row. */
  lemma {:induction false} EmptyComponentIff(s: string)
    ensures HasEmptyComponent(s) <==>
      (s == "" || IsSeparator(s[0]) || EndsWithSeparator(s) || HasAdjacentSeparators(s))
  {
    TailEmptyIff(s);
    HeadEmptyIff(s);
    var parts := Components(s);
    if parts[0] == "" {
      assert parts[0] == "";
    }
    if HasEmptyComponent(s) {
      var i :| 0 <= i < |parts| && parts[i] == "";
      if i > 0 { assert 1 <= i < |parts| && parts[i] == ""; }
    }
  }

  /** The first component is empty exactly when the name is empty or starts with a separator. */
  lemma HeadEmptyIff(s: string)
    ensures Components(s)[0] == "" <==> s == "" || IsSeparator(s[0])
  {
  }

  /** Adjacent separators are either the first two characters or lie in the rest. */
  lemma {:induction false} AdjacentSeparatorsUnfold(s: string)
    requires s != ""
    ensures HasAdjacentSeparators(s) <==>
      (|s| > 1 && IsSeparator(s[0]) && IsSeparator(s[1])) || HasAdjacentSeparators(s[1..])
  {
    var rest := s[1..];
    if HasAdjacentSeparators(s) {
      var i :| 0 <= i < |s| - 1 && IsSeparator(s[i]) && IsSeparator(s[i + 1]);
      if i > 0 { assert IsSeparator(rest[i - 1]) && IsSeparator(rest[i]); }
    }
    if HasAdjacentSeparators(rest) {
      var i :| 0 <= i < |rest| - 1 && IsSeparator(rest[i]) && IsSeparator(rest[i + 1]);
      assert IsSeparator(s[i + 1]) && IsSeparator(s[i + 2]);
    }
  }

  /** A leading separator makes every component of the rest a later component. */
  lemma {:induction false} LaterComponentsAfterSeparator(s: string)
    requires s != "" && IsSeparator(s[0])
    ensures HasEmptyLaterComponent(s) <==> HasEmptyComponent(s[1..])
  {
    var parts := Components(s);
    var restParts := Components(s[1..]);
    assert parts == [""] + restParts;
    if HasEmptyComponent(s[1..]) {
      var i :| 0 <= i < |restParts| && restParts[i] == "";
      assert parts[i + 1] == "";
    }
    if HasEmptyLaterComponent(s) {
      var i :| 1 <= i < |parts| && parts[i] == "";
      assert restParts[i - 1] == "";
    }
  }

  /** A leading letter joins the first component, so the later components are those of the rest. */
  lemma {:induction false} LaterComponentsAfterLetter(s: string)
    requires s != "" && !IsSeparator(s[0])
    ensures HasEmptyLaterComponent(s) <==> HasEmptyLaterComponent(s[1..])
  {
    var parts := Components(s);
    var restParts := Components(s[1..]);
    assert parts[1..] == restParts[1..];
    if HasEmptyLaterComponent(s[1..]) {
      var i :| 1 <= i < |restParts| && restParts[i] == "";
      assert parts[i] == "";
    }
    if HasEmptyLaterComponent(s) {
      var i :| 1 <= i < |parts| && parts[i] == "";
      assert restParts[i] == "";
    }
  }

  /** Some component after the first is empty exactly when the name ends with a separator or has two in a row. */
  lemma {:induction false} TailEmptyIff(s: string)
    ensures HasEmptyLaterComponent(s) <==> EndsWithSeparator(s) || HasAdjacentSeparators(s)
    decreases |s|
  {
    if s != [] {
      var rest := s[1..];
      TailEmptyIff(rest);
      AdjacentSeparatorsUnfold(s);
      assert rest != "" ==> (EndsWithSeparator(s) <==> EndsWithSeparator(rest));
      if IsSeparator(s[0]) {
        LaterComponentsAfterSeparator(s);
        HeadEmptyIff(rest);
        var restParts := Components(rest);
        if restParts[0] == "" { assert HasEmptyComponent(rest); }
        if HasEmptyComponent(rest) {
          var i :| 0 <= i < |restParts| && restParts[i] == "";
          if i > 0 { assert HasEmptyLaterComponent(rest); }
        }
      } else {
        LaterComponentsAfterLetter(s);
      }
    }
  }

  /** `i[0].upper() + i[1:].lower()` */
  function Capitalized(part: string): (r: string)
    requires part != ""
    ensures |r| == |part|
    ensures r[0] == UpperChar(part[0])
    ensures forall i :: 1 <= i < |part| ==> r[i] == LowerChar(part[i])
  {
    [UpperChar(part[0])] + Lower(part[1..])
  }

  /** `''.join(...)` of the capitalized components. */
  function CapitalizedAll(parts: seq<string>): (r: string)
    requires forall i :: 0 <= i < |parts| ==> parts[i] != ""
    decreases |parts|
  {
    if parts == [] then "" else Capitalized(parts[0]) + CapitalizedAll(parts[1..])
  }

  /** The characters of the name that are not separators, in order. */
  function Letters(s: string): (r: string)
    decreases |s|
  {
    if s == [] then "" else (if IsSeparator(s[0]) then "" else [s[0]]) + Letters(s[1..])
  }

  /** The concatenation of the components. */
  function Concat(parts: seq<string>): string
    decreases |parts|
  {
    if parts == [] then "" else parts[0] + Concat(parts[1..])
  }

  lemma {:induction false} ConcatComponents(s: string)
    ensures Concat(Components(s)) == Letters(s)
    decreases |s|
  {
    if s != [] {
      ConcatComponents(s[1..]);
      var rest := Components(s[1..]);
      if !IsSeparator(s[0]) {
        assert Concat(Components(s)) == [s[0]] + rest[0] + Concat(rest[1..]);
        assert Concat(rest) == rest[0] + Concat(rest[1..]);
      }
    }
  }

  lemma LowerLowerChar(c: char)
    ensures LowerChar(UpperChar(c)) == LowerChar(c) && LowerChar(LowerChar(c)) == LowerChar(c)
    ensures !IsSeparator(c) ==> !IsSeparator(UpperChar(c)) && !IsSeparator(LowerChar(c))
  {
  }

  lemma CapitalizedMatches(part: string)
    requires part != "" && NoSeparator(part)
    ensures Lower(Capitalized(part)) == Lower(part)
    ensures NoSeparator(Capitalized(part))
  {
    var c := Capitalized(part);
    forall i | 0 <= i < |part| ensures LowerChar(c[i]) == LowerChar(part[i]) && !IsSeparator(c[i]) {
      LowerLowerChar(part[i]);
    }
  }

  lemma LowerAppend(a: string, b: string)
    ensures Lower(a + b) == Lower(a) + Lower(b)
  {
  }

  lemma {:induction false} CapitalizedAllMatches(parts: seq<string>)
    requires forall i :: 0 <= i < |parts| ==> parts[i] != "" && NoSeparator(parts[i])
    ensures Lower(CapitalizedAll(parts)) == Lower(Concat(parts))
    ensures NoSeparator(CapitalizedAll(parts))
    ensures |CapitalizedAll(parts)| == |Concat(parts)|
    decreases |parts|
  {
    if parts != [] {
      var rest := CapitalizedAll(parts[1..]);
      CapitalizedAllMatches(parts[1..]);
      CapitalizedMatches(parts[0]);
      LowerAppend(Capitalized(parts[0]), rest);
      LowerAppend(parts[0], Concat(parts[1..]));
    }
  }

  /** Counts the separators of a name. */
  function SeparatorCount(s: string): nat
    decreases |s|
  {
    if s == [] then 0 else (if IsSeparator(s[0]) then 1 else 0) + SeparatorCount(s[1..])
  }

  lemma {:induction false} LettersLength(s: string)
    ensures |Letters(s)| + SeparatorCount(s) == |s|
    decreases |s|
  {
    if s != [] { LettersLength(s[1..]); }
  }

  /**
   * The camel-cased name read character by character: separators are dropped, a character that
   * starts a component (`atStart`: it comes first or follows a separator) is upper-cased, and
   * every other character is lower-cased.
   */
  function CamelFrom(s: string, atStart: bool): string
    decreases |s|
  {
    if s == [] then ""
    else if IsSeparator(s[0]) then CamelFrom(s[1..], true)
    else [if atStart then UpperChar(s[0]) else LowerChar(s[0])] + CamelFrom(s[1..], false)
  }

  /** Without empty components, joining the capitalized components is the character-wise camel case. */
  lemma {:induction false} CamelFromStart(s: string)
    requires !HasEmptyComponent(s)
    ensures CamelFrom(s, true) == CapitalizedAll(Components(s))
    decreases |s|, 1
  {
    StartsComponent(s);
    var restParts := Components(s[1..]);
    CamelFromLater(s[1..]);
    CapitalizedAfterLetter(s);
  }

  /** Inside a component, the camel case lowers the rest of the component and capitalizes the later ones. */
  lemma {:induction false} CamelFromLater(s: string)
    requires !HasEmptyLaterComponent(s)
    ensures var parts := Components(s);
      CamelFrom(s, false) == Lower(parts[0]) + CapitalizedAll(parts[1..])
    decreases |s|, 0
  {
    if s != [] {
      var rest := s[1..];
      if IsSeparator(s[0]) {
        LaterComponentsAfterSeparator(s);
        CamelFromStart(rest);
        ComponentsAfterSeparator(s);
      } else {
        LaterComponentsAfterLetter(s);
        CamelFromLater(rest);
        LoweredAfterLetter(s);
      }
    }
  }

  /** A name without empty components starts with a character that is no separator. */
  lemma StartsComponent(s: string)
    requires !HasEmptyComponent(s)
    ensures s != "" && !IsSeparator(s[0]) && !HasEmptyLaterComponent(s[1..])
  {
    HeadEmptyIff(s);
    assert Components(s)[0] != "";
    NoEmptyLaterComponent(s);
    LaterComponentsAfterLetter(s);
  }

  lemma NoEmptyLaterComponent(s: string)
    requires !HasEmptyComponent(s)
    ensures !HasEmptyLaterComponent(s)
  {
  }

  lemma ComponentsAfterSeparator(s: string)
    requires s != "" && IsSeparator(s[0])
    ensures Components(s)[0] == "" && Components(s)[1..] == Components(s[1..])
  {
    assert Components(s) == [""] + Components(s[1..]);
  }

  /** A leading non-separator joins the first component of the rest. */
  lemma ComponentsAfterLetter(s: string)
    requires s != "" && !IsSeparator(s[0])
    ensures var restParts := Components(s[1..]);
      Components(s)[0] == [s[0]] + restParts[0] && Components(s)[1..] == restParts[1..]
  {
    var restParts := Components(s[1..]);
    assert Components(s) == [[s[0]] + restParts[0]] + restParts[1..];
  }

  /** Capitalizing the components of a name that starts with a letter upper-cases that letter. */
  lemma CapitalizedAfterLetter(s: string)
    requires !HasEmptyComponent(s) && s != "" && !IsSeparator(s[0]) && !HasEmptyLaterComponent(s[1..])
    ensures var restParts := Components(s[1..]);
      CapitalizedAll(Components(s)) == [UpperChar(s[0])] + (Lower(restParts[0]) + CapitalizedAll(restParts[1..]))
  {
    var parts := Components(s);
    var restParts := Components(s[1..]);
    ComponentsAfterLetter(s);
    assert CapitalizedAll(parts) == Capitalized(parts[0]) + CapitalizedAll(restParts[1..]);
    CapitalizedCons(s[0], restParts[0]);
    AppendAssoc([UpperChar(s[0])], Lower(restParts[0]), CapitalizedAll(restParts[1..]));
  }

  /** Lowering the first component of a name that starts with a letter lowers that letter. */
  lemma LoweredAfterLetter(s: string)
    requires s != "" && !IsSeparator(s[0]) && !HasEmptyLaterComponent(s[1..])
    ensures var restParts := Components(s[1..]);
      [LowerChar(s[0])] + (Lower(restParts[0]) + CapitalizedAll(restParts[1..]))
      == Lower(Components(s)[0]) + CapitalizedAll(Components(s)[1..])
  {
    var restParts := Components(s[1..]);
    ComponentsAfterLetter(s);
    LowerFront(s[0], restParts[0], CapitalizedAll(restParts[1..]));
  }

  /** Lowering a component with a character in front lowers that character. */
  lemma LowerFront(c: char, part: string, tail: string)
    ensures [LowerChar(c)] + (Lower(part) + tail) == Lower([c] + part) + tail
  {
    LowerAppend([c], part);
    assert Lower([c]) == [LowerChar(c)];
    AppendAssoc([LowerChar(c)], Lower(part), tail);
  }

  lemma AppendAssoc(a: string, b: string, c: string)
    ensures a + (b + c) == (a + b) + c
  {
  }

  /** A component starting with a character is capitalized as that character upper-cased before the rest lowered. */
  lemma CapitalizedCons(c: char, rest: string)
    ensures Capitalized([c] + rest) == [UpperChar(c)] + Lower(rest)
  {
    assert ([c] + rest)[1..] == rest;
  }

  /**
   * `to_camel_case`: the name without its separators, each component starting with an upper-case
   * letter and lower-case after it; it fails exactly when a component is empty.
   */
  function CamelCase(s: string): (r: Result<string, Failure>)
    ensures r.Failure? <==> HasEmptyComponent(s)
    ensures r.Failure? ==> r.error == EmptyComponent
    ensures r.Success? ==> NoSeparator(r.value)
    ensures r.Success? ==> Lower(r.value) == Lower(Letters(s))
    ensures r.Success? ==> |r.value| == |s| - SeparatorCount(s)
    // each component's first character is upper-cased and the rest lower-cased
    ensures r.Success? ==> r.value == CamelFrom(s, true)
  {
    var parts := Components(s);
    if HasEmptyComponent(s) then Failure(EmptyComponent)
    else
      CamelFromStart(s);
      CapitalizedAllMatches(parts);
      ConcatComponents(s);
      LettersLength(s);
      Success(CapitalizedAll(parts))
  }

  // ---------------------------------------------------------------------------------------------
  // combine_templates

  /** The second level of a template, such as its `Resources` or its `Outputs`. */
  type Section = map<string, Json.Value>

  /** The sections of `base` after the sections of `other` named in `done` have been merged in. */
  function MergedSections(base: map<string, Section>, other: map<string, Section>, done: set<string>): (m: map<string, Section>)
    requires done <= other.Keys
    ensures m.Keys == base.Keys + done
  {
    map name | name in base.Keys + done ::
      if name !in done then base[name]
      else if name in base then base[name] + other[name]
      else other[name]
  }

  /** Merging in one more section updates that section alone. */
  lemma MergeOneSection(base: map<string, Section>, other: map<string, Section>, done: set<string>, name: string)
    requires done <= other.Keys && name in other && name !in done
    ensures var m := MergedSections(base, other, done);
      MergedSections(base, other, done + {name})
      == m[name := if name in m then m[name] + other[name] else other[name]]
  {
  }

  /** A CloudFormation template under construction, merged into in place. */
  class Template {
    var sections: map<string, Section>

    constructor (sections: map<string, Section>)
      ensures this.sections == sections
    {
      this.sections := sections;
    }

    /**
     * `combine_templates(self, other)`: new sections are added, sections only here are kept,
     * and a shared section is updated entry by entry, `other`'s entries winning.
     */
    method Combine(other: map<string, Section>)
      modifies this
      ensures sections.Keys == old(sections).Keys + other.Keys
      ensures forall name :: name in old(sections) && name !in other ==> sections[name] == old(sections)[name]
      ensures forall name :: name in other && name !in old(sections) ==> sections[name] == other[name]
      ensures forall name :: name in other && name in old(sections) ==> sections[name] == old(sections)[name] + other[name]
    {
      var pending := other.Keys;
      while pending != {}
        invariant pending <= other.Keys
        invariant sections == MergedSections(old(sections), other, other.Keys - pending)
        decreases pending
      {
        var name :| name in pending;
        MergeOneSection(old(sections), other, other.Keys - pending, name);
        assert other.Keys - (pending - {name}) == (other.Keys - pending) + {name};
        if name in sections {
          sections := sections[name := sections[name] + other[name]];
        } else {
          sections := sections[name := other[name]];
        }
        pending := pending - {name};
      }
    }
  }

  // ---------------------------------------------------------------------------------------------
  // The YAML front matter of a Lambda function file

  predicate IsComment(line: string) {
    |line| > 0 && line[0] == '#'
  }

  /** `line[2:]`: the comment sign and one character after it cut. */
  function Uncommented(line: string): string {
    DropPrefix(line, 2)
  }

  /** A comment line whose text, stripped, is `---`. */
  predicate IsMarker(line: string) {
    IsComment(line) && StripWhitespace(Uncommented(line)) == "---"
  }

  /** The lines `readline` delivers: those before the first empty string, which marks the end of the file. */
  function EndOfFile(lines: seq<string>): (n: nat)
    ensures n <= |lines|
    ensures n < |lines| ==> lines[n] == ""
    ensures forall i :: 0 <= i < n ==> lines[i] != ""
    decreases |lines|
  {
    if lines == [] then 0
    else if lines[0] == "" then 0
    else 1 + EndOfFile(lines[1..])
  }

  /** The first marker line in `lines[lo..hi]`, or `hi`. */
  function FirstMarker(lines: seq<string>, lo: nat, hi: nat): (i: nat)
    requires lo <= hi <= |lines|
    ensures lo <= i <= hi
    ensures i < hi ==> IsMarker(lines[i])
    ensures forall j {:trigger IsMarker(lines[j])} :: lo <= j < i ==> !IsMarker(lines[j])
    decreases hi - lo
  {
    if lo == hi then hi
    else if IsMarker(lines[lo]) then lo
    else FirstMarker(lines, lo + 1, hi)
  }

  /** The comment lines of `lines`, each with its first two characters cut; other lines are dropped. */
  function CommentBodies(lines: seq<string>): (r: seq<string>)
    ensures |r| <= |lines|
    decreases |lines|
  {
    if lines == [] then []
    else
      var last := lines[|lines| - 1];
      CommentBodies(lines[..|lines| - 1]) + if IsComment(last) then [Uncommented(last)] else []
  }

  /**
   * The front matter of a file: the comment lines strictly between the first and the second
   * marker line (or the end of the file), cut; None when there is no first marker.
   */
  function FrontMatter(lines: seq<string>): Option<seq<string>> {
    var eof := EndOfFile(lines);
    var open := FirstMarker(lines, 0, eof);
    if open == eof then None
    else Some(CommentBodies(lines[open + 1..FirstMarker(lines, open + 1, eof)]))
  }

  /** The first marker in a range is the first in any longer range when it lies in the shorter one. */
  lemma FirstMarkerExtends(lines: seq<string>, lo: nat, hi: nat, hi': nat)
    requires lo <= hi <= hi' <= |lines|
    ensures FirstMarker(lines, lo, hi) < hi ==> FirstMarker(lines, lo, hi') == FirstMarker(lines, lo, hi)
    ensures FirstMarker(lines, lo, hi) == hi ==> FirstMarker(lines, lo, hi') == FirstMarker(lines, hi, hi')
  {
  }

  /** What the scan knows after reading `lines[..i]`: `yamlLines` is the front matter so far. */
  ghost predicate Scanned(lines: seq<string>, i: nat, yamlLines: Option<seq<string>>)
    requires i <= |lines|
  {
    var open := FirstMarker(lines, 0, i);
    match yamlLines
    case None => open == i
    case Some(body) =>
      open < i && FirstMarker(lines, open + 1, i) == i && body == CommentBodies(lines[open + 1..i])
  }

  lemma {:induction false} ScanOutside(lines: seq<string>, i: nat)
    requires i < |lines| && Scanned(lines, i, None)
    ensures IsMarker(lines[i]) ==> Scanned(lines, i + 1, Some([]))
    ensures !IsMarker(lines[i]) ==> Scanned(lines, i + 1, None)
  {
    FirstMarkerExtends(lines, 0, i, i + 1);
  }

  lemma {:induction false} ScanInside(lines: seq<string>, i: nat, body: seq<string>)
    requires i < |lines| && Scanned(lines, i, Some(body)) && !IsMarker(lines[i])
    ensures Scanned(lines, i + 1, Some(body + if IsComment(lines[i]) then [Uncommented(lines[i])] else []))
  {
    var open := FirstMarker(lines, 0, i);
    InsideMarkers(lines, i, open);
    CommentBodiesExtend(lines, open + 1, i);
  }

  /** Inside the front matter, a line that is not a marker keeps the opening marker and does not close. */
  lemma {:induction false} InsideMarkers(lines: seq<string>, i: nat, open: nat)
    requires i < |lines| && open < i && !IsMarker(lines[i])
    requires FirstMarker(lines, 0, i) == open && FirstMarker(lines, open + 1, i) == i
    ensures FirstMarker(lines, 0, i + 1) == open && FirstMarker(lines, open + 1, i + 1) == i + 1
  {
    FirstMarkerExtends(lines, 0, i, i + 1);
    FirstMarkerExtends(lines, open + 1, i, i + 1);
  }

  /** Extending a range by one line adds that line's body when it is a comment. */
  lemma {:induction false} CommentBodiesExtend(lines: seq<string>, lo: nat, hi: nat)
    requires lo <= hi < |lines|
    ensures CommentBodies(lines[lo..hi + 1])
         == CommentBodies(lines[lo..hi]) + if IsComment(lines[hi]) then [Uncommented(lines[hi])] else []
  {
    var range := lines[lo..hi + 1];
    assert range[..|range| - 1] == lines[lo..hi];
    assert range[|range| - 1] == lines[hi];
  }

  lemma {:induction false} ScanEnds(lines: seq<string>, i: nat, yamlLines: Option<seq<string>>)
    requires i <= EndOfFile(lines) && Scanned(lines, i, yamlLines)
    requires i == EndOfFile(lines) || (yamlLines.Some? && IsMarker(lines[i]))
    ensures yamlLines == FrontMatter(lines)
  {
    var eof := EndOfFile(lines);
    FirstMarkerExtends(lines, 0, i, eof);
    if yamlLines.Some? {
      FirstMarkerExtends(lines, FirstMarker(lines, 0, i) + 1, i, eof);
    }
  }

  /** The front matter so far after one more line that does not close it. */
  function ScanNext(yamlLines: Option<seq<string>>, line: string): Option<seq<string>> {
    match yamlLines
    case None => if IsMarker(line) then Some([]) else None
    case Some(body) => Some(body + if IsComment(line) then [Uncommented(line)] else [])
  }

  lemma {:induction false} ScanStep(lines: seq<string>, i: nat, yamlLines: Option<seq<string>>)
    requires i < |lines| && Scanned(lines, i, yamlLines)
    requires yamlLines.Some? ==> !IsMarker(lines[i])
    ensures Scanned(lines, i + 1, ScanNext(yamlLines, lines[i]))
  {
    if yamlLines.None? {
      ScanOutside(lines, i);
    } else {
      ScanInside(lines, i, yamlLines.value);
    }
  }

  /** One line read by the scan: the front matter so far after it, or `closes` when it ends the scan. */
  method ScanLine(yamlLines: Option<seq<string>>, line: string) returns (next: Option<seq<string>>, closes: bool)
    ensures closes <==> yamlLines.Some? && IsMarker(line)
    ensures !closes ==> next == ScanNext(yamlLines, line)
  {
    next, closes := yamlLines, false;
    if IsComment(line) {
      var text := Uncommented(line);
      if yamlLines.None? {
        if StripWhitespace(text) == "---" {
          next := Some([]);
        }
      } else if StripWhitespace(text) == "---" {
        closes := true;
      } else {
        next := Some(yamlLines.value + [text]);
      }
    } else if yamlLines.Some? {
      assert yamlLines.value + [] == yamlLines.value;
    }
  }

  /** The scan in `populate_lambda_functions_dict`: returns `yaml_lines`. */
  method ScanFrontMatter(lines: seq<string>) returns (yamlLines: Option<seq<string>>)
    ensures yamlLines == FrontMatter(lines)
  {
    yamlLines := None;
    var i := 0;
    while i < |lines|
      invariant i <= EndOfFile(lines)
      invariant Scanned(lines, i, yamlLines)
    {
      var line := lines[i];
      if line == "" {
        break;
      }
      assert i < EndOfFile(lines);
      var next, closes := ScanLine(yamlLines, line);
      if closes {
        break;
      }
      ScanStep(lines, i, yamlLines);
      yamlLines := next;
      i := i + 1;
    }
    ScanEnds(lines, i, yamlLines);
  }

  /** `len(yaml_lines) > 0`, which raises when no front matter was found. */
  function HasFrontMatter(yamlLines: Option<seq<string>>): (r: Result<bool, Failure>)
    ensures r.Failure? <==> yamlLines.None?
    ensures r.Success? ==> (r.value <==> |yamlLines.value| > 0)
  {
    match yamlLines
    case None => Failure(NoFrontMatter)
    case Some(ls) => Success(|ls| > 0)
  }

  // ---------------------------------------------------------------------------------------------
  // The policy list of a Lambda function

  const DefaultPolicy := "AWSLambdaBasicExecutionRole"
  const PoliciesField := "Policies"

  /** Python's `name in policies` for the value types that support it. */
  predicate Mentions(policies: Json.Value, name: string)
    requires !policies.Number? && !policies.Bool? && !policies.Null?
  {
    match policies
    case Array(items) => Json.Str(name) in items
    case Str(s) => Contains(s, name)
    case Object(fields) => name in Json.Names(fields)
  }

  /** The policy list after the fix-up, from the `Policies` property (None when missing). */
  function FixedPolicies(policies: Option<Json.Value>): (r: Result<Json.Value, Failure>)
    // afterwards the default policy is in the list
    ensures r.Success? ==> !r.value.Number? && !r.value.Bool? && !r.value.Null? && Mentions(r.value, DefaultPolicy)
    // a missing or null list becomes the default alone
    ensures policies.None? || policies == Some(Json.Null) ==> r == Success(Json.Array([Json.Str(DefaultPolicy)]))
    // a list keeps its entries in order; the default is appended only when absent
    ensures policies.Some? && policies.value.Array? ==>
      var items := policies.value.items;
      && r.Success? && r.value.Array?
      && |items| <= |r.value.items| <= |items| + 1
      && r.value.items[..|items|] == items
      && (|r.value.items| == |items| <==> Json.Str(DefaultPolicy) in items)
    ensures r.Failure? ==> policies.Some? && !policies.value.Array?
    // any other value is searched and never appended to: a number or a bool cannot be searched, and
    // a string or a dict is kept as it is when it mentions the default and fails otherwise
    ensures policies.Some? && !policies.value.Array? && !policies.value.Null? ==>
      && (r.Success? <==> !policies.value.Number? && !policies.value.Bool? && Mentions(policies.value, DefaultPolicy))
      && (r.Success? ==> r.value == policies.value)
      && (r.Failure? ==> r.error == if policies.value.Number? || policies.value.Bool? then NotSearchable else NoAppend)
  {
    match policies
    case None => Success(Json.Array([Json.Str(DefaultPolicy)]))
    case Some(p) =>
      if p.Null? then Success(Json.Array([Json.Str(DefaultPolicy)]))
      else if p.Number? || p.Bool? then Failure(NotSearchable)
      else if Mentions(p, DefaultPolicy) then Success(p)
      else if p.Array? then
        assert (p.items + [Json.Str(DefaultPolicy)])[..|p.items|] == p.items;
        Success(Json.Array(p.items + [Json.Str(DefaultPolicy)]))
      else Failure(NoAppend)
  }

  /** The fix-up is idempotent: a fixed list is left as it is. */
  lemma FixedPoliciesIdempotent(policies: Option<Json.Value>)
    requires FixedPolicies(policies).Success?
    ensures FixedPolicies(Some(FixedPolicies(policies).value)) == FixedPolicies(policies)
  {
  }

  /** The fix-up of `properties['Policies']` in `generate_lambda_function_cfn_template`. */
  method FixUpPolicies(properties: map<string, Json.Value>) returns (r: Result<map<string, Json.Value>, Failure>)
    ensures var fixed := FixedPolicies(Get(properties, PoliciesField));
      && (r.Success? <==> fixed.Success?)
      && (r.Success? ==> r.value == properties[PoliciesField := fixed.value])
  {
    var props := properties;
    if PoliciesField !in props || props[PoliciesField].Null? {
      props := props[PoliciesField := Json.Array([Json.Str(DefaultPolicy)])];
    }
    var policies := props[PoliciesField];
    if policies.Number? || policies.Bool? {
      return Failure(NotSearchable);
    }
    if !Mentions(policies, DefaultPolicy) {
      if !policies.Array? {
        return Failure(NoAppend);
      }
      props := props[PoliciesField := Json.Array(policies.items + [Json.Str(DefaultPolicy)])];
    }
    return Success(props);
  }

  // ---------------------------------------------------------------------------------------------
  // The `"Resource":` lines of a state machine definition

  /**
   * A line of the definition string: kept as it is, or the reference that joins `prefix`, `: "`,
   * the ARN of the function with the given logical name, and `",`.
   */
  datatype DefinitionLine = Verbatim(text: string) | ResourceArn(prefix: string, logicalName: string)

  const ResourceTag := "\"Resource\":"

  /** `line.lstrip().startswith('"Resource":')` */
  predicate IsResourceLine(line: string) {
    StartsWith(LStripWhitespace(line), ResourceTag)
  }

  /** The index of the first colon, or the length when there is none. */
  function FirstColon(s: string): (i: nat)
    ensures i <= |s|
    ensures i < |s| ==> s[i] == ':'
    ensures forall j :: 0 <= j < i ==> s[j] != ':'
    decreases |s|
  {
    if s == [] then 0 else if s[0] == ':' then 0 else 1 + FirstColon(s[1..])
  }

  lemma ResourceLineHasColon(line: string)
    requires IsResourceLine(line)
    ensures FirstColon(line) < |line|
  {
    var stripped := LStripWhitespace(line);
    var k := |line| - |stripped|;
    assert ResourceTag[10] == ':';
    assert stripped[10] == ':' by {
      assert stripped[..|ResourceTag|] == ResourceTag;
      assert stripped[..|ResourceTag|][10] == stripped[10];
    }
    assert line[k + 10] == stripped[10];
  }

  /** `line.split(':', 1)` on a line with a colon: the text before the first colon and the text after it. */
  function SplitAtColon(line: string): (parts: (string, string))
    requires FirstColon(line) < |line|
    ensures parts.0 + ":" + parts.1 == line
    ensures ':' !in parts.0
  {
    var i := FirstColon(line);
    var before, after := line[..i], line[i + 1..];
    assert line == before + [line[i]] + after;
    assert forall j :: 0 <= j < |before| ==> before[j] != ':';
    (before, after)
  }

  /** The text of a resource line before its first colon, kept in the rewritten line. */
  function ResourcePrefix(line: string): string
    requires IsResourceLine(line)
  {
    ResourceLineHasColon(line);
    SplitAtColon(line).0
  }

  predicate IsResourceNameJunk(c: char) {
    c == ' ' || c == '"' || c == ','
  }

  /** The function name a resource line refers to: `resource.strip(' ",')`. */
  function ResourceName(line: string): string
    requires IsResourceLine(line)
  {
    ResourceLineHasColon(line);
    Strip(SplitAtColon(line).1, IsResourceNameJunk)
  }

  /** A resource line naming one of the Lambda functions. */
  predicate RefersToFunction(line: string, functionNames: set<string>) {
    IsResourceLine(line) && ResourceName(line) in functionNames
  }

  /** One line of the rewrite. */
  function RewriteLine(line: string, functionNames: set<string>): (r: Result<DefinitionLine, Failure>)
    ensures !RefersToFunction(line, functionNames) ==> r == Success(Verbatim(line))
    ensures RefersToFunction(line, functionNames) ==>
      var name := CamelCase(ResourceName(line));
      && (name.Success? ==> r == Success(ResourceArn(ResourcePrefix(line), name.value)))
      && (name.Failure? ==> r == Failure(EmptyComponent))
  {
    if RefersToFunction(line, functionNames) then
      match CamelCase(ResourceName(line))
      case Success(name) => Success(ResourceArn(ResourcePrefix(line), name))
      case Failure(e) => Failure(e)
    else Success(Verbatim(line))
  }

  /** A line comes out unchanged exactly when it does not name a Lambda function. */
  lemma RewrittenVerbatim(line: string, functionNames: set<string>)
    requires RewriteLine(line, functionNames).Success?
    ensures RewriteLine(line, functionNames).value == Verbatim(line) <==> !RefersToFunction(line, functionNames)
  {
  }

  /** `out` holds the rewrites of the first `|out|` lines. */
  predicate Rewrites(lines: seq<string>, functionNames: set<string>, out: seq<DefinitionLine>) {
    |out| <= |lines| && forall j :: 0 <= j < |out| ==> Success(out[j]) == RewriteLine(lines[j], functionNames)
  }

  lemma RewritesAppend(lines: seq<string>, functionNames: set<string>, out: seq<DefinitionLine>, next: DefinitionLine)
    requires Rewrites(lines, functionNames, out) && |out| < |lines|
    requires Success(next) == RewriteLine(lines[|out|], functionNames)
    ensures Rewrites(lines, functionNames, out + [next])
  {
    var longer := out + [next];
    forall j | 0 <= j < |longer| ensures Success(longer[j]) == RewriteLine(lines[j], functionNames) {
      if j < |out| {
        assert longer[j] == out[j];
      } else {
        assert j == |out| && longer[j] == next;
      }
    }
  }

  /**
   * The loop of `generate_state_machine_cfn_template` that builds `definition_lines`: one output
   * line per input line, a line replaced exactly when it is a resource line naming a Lambda function.
   */
  method RewriteResourceLines(lines: seq<string>, functionNames: set<string>) returns (r: Result<seq<DefinitionLine>, Failure>)
    ensures r.Success? <==> forall i :: 0 <= i < |lines| ==> RewriteLine(lines[i], functionNames).Success?
    ensures r.Success? ==> |r.value| == |lines|
    ensures r.Success? ==> forall i :: 0 <= i < |lines| ==> Success(r.value[i]) == RewriteLine(lines[i], functionNames)
    ensures r.Success? ==> forall i :: 0 <= i < |lines| ==>
              (r.value[i] == Verbatim(lines[i]) <==> !RefersToFunction(lines[i], functionNames))
  {
    var definitionLines: seq<DefinitionLine> := [];
    for i := 0 to |lines|
      invariant |definitionLines| == i
      invariant Rewrites(lines, functionNames, definitionLines)
    {
      var line := RewriteLine(lines[i], functionNames);
      if line.Failure? {
        return Failure(line.error);
      }
      RewritesAppend(lines, functionNames, definitionLines, line.value);
      definitionLines := definitionLines + [line.value];
    }
    forall j | 0 <= j < |lines|
      ensures definitionLines[j] == Verbatim(lines[j]) <==> !RefersToFunction(lines[j], functionNames)
    {
      RewrittenVerbatim(lines[j], functionNames);
    }
    return Success(definitionLines);
  }

  // ---------------------------------------------------------------------------------------------
  // Stack status decisions

  datatype ChangeSetType = Create | Update

  /** The change set to create, and whether a stack in ROLLBACK_COMPLETE is deleted first. */
  datatype ChangeSetPlan = ChangeSetPlan(deleteStackFirst: bool, changeSetType: ChangeSetType)

  /** `create_cfn_change_set`, from the stack status (None when there is no stack). */
  function PlanChangeSet(stackStatus: Option<string>): (plan: ChangeSetPlan)
    ensures plan.changeSetType == Create <==>
      stackStatus.None? || stackStatus.value == "REVIEW_IN_PROGRESS" || stackStatus.value == "ROLLBACK_COMPLETE"
    ensures plan.deleteStackFirst <==> stackStatus == Some("ROLLBACK_COMPLETE")
  {
    match stackStatus
    case None => ChangeSetPlan(false, Create)
    case Some(status) =>
      if status == "REVIEW_IN_PROGRESS" then ChangeSetPlan(false, Create)
      else if status == "ROLLBACK_COMPLETE" then ChangeSetPlan(true, Create)
      else ChangeSetPlan(false, Update)
  }

  datatype DeleteOutcome = AlreadyDeleting | DeletionFailed | NothingToDelete | StackDeleted | Aborted

  /** The status `delete_cfn_stack` works with: `NOT_EXIST` when there is no stack. */
  function StatusName(stackStatus: Option<string>): string {
    stackStatus.GetOr("NOT_EXIST")
  }

  /** The statuses for which `delete_cfn_stack` returns without asking. */
  predicate Handled(status: string) {
    status == "DELETE_IN_PROGRESS" || status == "DELETE_FAILED"
    || status == "NOT_EXIST" || status == "CREATE_FAILED" || status == "DELETE_COMPLETE"
  }

  /** `delete_cfn_stack`, with `answer` the text the user types when asked. */
  function DeleteStack(stackStatus: Option<string>, answer: string): (outcome: DeleteOutcome)
    // the stack is deleted only outside the handled statuses and only on the exact answer
    ensures outcome == StackDeleted <==> !Handled(StatusName(stackStatus)) && answer == "delete"
    ensures outcome == Aborted <==> !Handled(StatusName(stackStatus)) && answer != "delete"
    ensures outcome == AlreadyDeleting <==> StatusName(stackStatus) == "DELETE_IN_PROGRESS"
    ensures outcome == DeletionFailed <==> StatusName(stackStatus) == "DELETE_FAILED"
    ensures stackStatus.None? ==> outcome == NothingToDelete
  {
    var status := StatusName(stackStatus);
    if status == "DELETE_IN_PROGRESS" then AlreadyDeleting
    else if status == "DELETE_FAILED" then DeletionFailed
    else if status in ["NOT_EXIST", "CREATE_FAILED", "DELETE_COMPLETE"] then NothingToDelete
    else if answer == "delete" then StackDeleted
    else Aborted
  }
}
