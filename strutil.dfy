/**
 * Display formatting of names (src/strutil.ts) and the ASCII case mappings that
 * stand in for JavaScript's `toUpperCase` and `toLowerCase`.
 */
module StrUtil {

  /** ASCII upper-casing: only 'a'..'z' change. */
  function ToUpperChar(c: char): (u: char)
    ensures 'a' <= c <= 'z' ==> 'A' <= u <= 'Z' && u as int == c as int - 32
    ensures !('a' <= c <= 'z') ==> u == c
  {
    if 'a' <= c <= 'z' then (c as int - 32) as char else c
  }

  /** ASCII lower-casing: only 'A'..'Z' change. */
  function ToLowerChar(c: char): (l: char)
    ensures 'A' <= c <= 'Z' ==> 'a' <= l <= 'z' && l as int == c as int + 32
    ensures !('A' <= c <= 'Z') ==> l == c
  {
    if 'A' <= c <= 'Z' then (c as int + 32) as char else c
  }

  /** `s.toLowerCase()` restricted to ASCII. */
  function ToLower(s: string): (r: string)
    ensures |r| == |s|
    ensures forall i :: 0 <= i < |s| ==> r[i] == ToLowerChar(s[i])
  {
    if s == "" then "" else [ToLowerChar(s[0])] + ToLower(s[1..])
  }

  /** `capitalize`: the first character upper-cased, the rest as it is. */
  function Capitalize(name: string): (r: string)
    ensures |r| == |name|
    ensures name == "" ==> r == ""
    ensures name != "" ==> r[0] == ToUpperChar(name[0]) && r[1..] == name[1..]
  {
    if name == "" then "" else [ToUpperChar(name[0])] + name[1..]
  }

  /** Capitalizing does not change what a name lower-cases to: lookups ignore it. */
  lemma CapitalizeToLower(name: string)
    ensures ToLower(Capitalize(name)) == ToLower(name)
  {
    var a, b := ToLower(Capitalize(name)), ToLower(name);
    forall i | 0 <= i < |name| ensures a[i] == b[i] {
      if i == 0 {
        assert ToLowerChar(ToUpperChar(name[0])) == ToLowerChar(name[0]);
      }
    }
  }

  /** Capitalizing twice is capitalizing once. */
  lemma CapitalizeIdempotent(name: string)
    ensures Capitalize(Capitalize(name)) == Capitalize(name)
  {
    if name != "" {
      assert Capitalize(name)[0] == ToUpperChar(name[0]);
    }
  }

  /** `s.split(sep)`: the maximal runs between occurrences of `sep`; never empty. */
  function Split(s: string, sep: char): (parts: seq<string>)
    ensures |parts| >= 1
    ensures forall p :: p in parts ==> sep !in p
  {
    if s == "" then [""]
    else
      var rest := Split(s[1..], sep);
      if s[0] == sep then [""] + rest
      else [[s[0]] + rest[0]] + rest[1..]
  }

  /** `parts.join(sep)`. */
  function Join(parts: seq<string>, sep: string): string {
    if parts == [] then ""
    else if |parts| == 1 then parts[0]
    else parts[0] + sep + Join(parts[1..], sep)
  }

  /** Joining the parts of a split with the separator gives back the string. */
  lemma {:induction false} JoinSplit(s: string, sep: char)
    ensures Join(Split(s, sep), [sep]) == s
  {
    if s != "" {
      var rest := Split(s[1..], sep);
      JoinSplit(s[1..], sep);
      if s[0] == sep {
        assert ([""] + rest)[1..] == rest;
      } else if |rest| > 1 {
        var parts := [[s[0]] + rest[0]] + rest[1..];
        assert parts[1..] == rest[1..];
        assert s == [s[0]] + s[1..];
      }
    }
  }

  lemma {:induction false} SplitWithoutSeparator(s: string, sep: char)
    requires sep !in s
    ensures Split(s, sep) == [s]
  {
    if s != "" {
      assert s[0] in s && s == [s[0]] + s[1..];
      assert forall c :: c in s[1..] ==> c in s;
      SplitWithoutSeparator(s[1..], sep);
    }
  }

  function CapitalizeAll(parts: seq<string>): (r: seq<string>)
    ensures |r| == |parts|
    ensures forall i :: 0 <= i < |parts| ==> r[i] == Capitalize(parts[i])
  {
    seq(|parts|, i requires 0 <= i < |parts| => Capitalize(parts[i]))
  }

  /** The parts from the first non-empty one on: `convertMove` adds no space while its output is empty. */
  function DropLeadingEmpty(parts: seq<string>): (r: seq<string>)
    ensures r != [] ==> r[0] != ""
    ensures forall p :: p in r ==> p in parts
    ensures r == [] ==> forall p :: p in parts ==> p == ""
  {
    if parts == [] then []
    else if parts[0] == "" then
      assert parts == [parts[0]] + parts[1..];
      DropLeadingEmpty(parts[1..])
    else parts
  }

  /** The result is the input with its leading empty parts removed, and nothing else. */
  lemma {:induction false} DropLeadingEmptySuffix(parts: seq<string>)
    ensures exists k :: 0 <= k <= |parts| && DropLeadingEmpty(parts) == parts[k..] && forall i :: 0 <= i < k ==> parts[i] == ""
  {
    if parts == [] {
      assert parts[0..] == parts;
    } else if parts[0] == "" {
      DropLeadingEmptySuffix(parts[1..]);
      var k :| 0 <= k <= |parts[1..]| && DropLeadingEmpty(parts[1..]) == parts[1..][k..] && forall i :: 0 <= i < k ==> parts[1..][i] == "";
      assert parts[1..][k..] == parts[k + 1..];
      assert forall i :: 0 <= i < k + 1 ==> parts[i] == "" by {
        forall i | 0 <= i < k + 1 ensures parts[i] == "" {
          if i > 0 { assert parts[i] == parts[1..][i - 1]; }
        }
      }
    } else {
      assert parts[0..] == parts;
    }
  }

  /** What `convertMove` yields: the capitalized parts, leading empty ones dropped, joined by spaces. */
  function ConvertedMove(name: string): string {
    Words(Split(name, '-'))
  }

  lemma {:induction false} DropLeadingEmptyAppend(parts: seq<string>, p: string)
    ensures DropLeadingEmpty(parts + [p])
         == if DropLeadingEmpty(parts) == [] then (if p == "" then [] else [p])
            else DropLeadingEmpty(parts) + [p]
  {
    if parts != [] {
      assert (parts + [p])[1..] == parts[1..] + [p];
      DropLeadingEmptyAppend(parts[1..], p);
    }
  }

  lemma {:induction false} JoinAppend(parts: seq<string>, sep: string, p: string)
    requires parts != []
    ensures Join(parts + [p], sep) == Join(parts, sep) + sep + p
  {
    if |parts| > 1 {
      assert (parts + [p])[1..] == parts[1..] + [p];
      JoinAppend(parts[1..], sep, p);
    }
  }

  lemma JoinNonEmpty(parts: seq<string>, sep: string)
    requires parts != [] && parts[0] != ""
    ensures Join(parts, sep) != ""
  {
    if |parts| > 1 {
      assert Join(parts, sep) == parts[0] + (sep + Join(parts[1..], sep));
    }
  }

  /** The output of `convertMove`'s loop after it has seen `parts`. */
  function Words(parts: seq<string>): string {
    Join(CapitalizeAll(DropLeadingEmpty(parts)), " ")
  }

  /** One iteration of `convertMove`'s loop. */
  lemma ConvertStep(parts: seq<string>, p: string)
    ensures Words(parts + [p]) == (if |Words(parts)| > 0 then Words(parts) + " " else "") + Capitalize(p)
  {
    var d := DropLeadingEmpty(parts);
    DropLeadingEmptyAppend(parts, p);
    if d == [] {
      assert Words(parts) == "";
      if p != "" {
        assert CapitalizeAll([p]) == [Capitalize(p)];
      }
    } else {
      var c := CapitalizeAll(d);
      assert c[0] == Capitalize(d[0]);
      JoinNonEmpty(c, " ");
      assert CapitalizeAll(d + [p]) == c + [Capitalize(p)];
      JoinAppend(c, " ", Capitalize(p));
    }
  }

  /** `convertMove`: splits at '-', capitalizes each part, inserts a space before a part once the output is non-empty. */
  method ConvertMove(name: string) returns (ret: string)
    ensures ret == ConvertedMove(name)
  {
    var parts := Split(name, '-');
    ret := "";
    for i := 0 to |parts|
      invariant ret == Words(parts[..i])
    {
      ConvertStep(parts[..i], parts[i]);
      if |ret| > 0 {
        ret := ret + " ";
      }
      ret := ret + Capitalize(parts[i]);
      assert parts[..i + 1] == parts[..i] + [parts[i]];
    }
    assert parts[..|parts|] == parts;
  }

  lemma {:induction false} JoinWithout(parts: seq<string>, sep: string, c: char)
    requires c !in sep && forall p :: p in parts ==> c !in p
    ensures c !in Join(parts, sep)
  {
    if |parts| > 1 {
      JoinWithout(parts[1..], sep, c);
    }
  }

  /** A converted move name never contains '-'. */
  lemma ConvertedMoveHasNoHyphen(name: string)
    ensures '-' !in ConvertedMove(name)
  {
    var parts := CapitalizeAll(DropLeadingEmpty(Split(name, '-')));
    forall p | p in parts ensures '-' !in p {
      var i :| 0 <= i < |parts| && parts[i] == p;
      var q := DropLeadingEmpty(Split(name, '-'))[i];
      assert q in Split(name, '-');
      assert p == Capitalize(q);
      if p != "" {
        assert p == [ToUpperChar(q[0])] + q[1..];
      }
    }
    JoinWithout(parts, " ", '-');
  }

  /** A name without '-' converts to its capitalization. */
  lemma ConvertedMoveWithoutHyphen(name: string)
    requires '-' !in name
    ensures ConvertedMove(name) == Capitalize(name)
  {
    SplitWithoutSeparator(name, '-');
    if name != "" {
      assert CapitalizeAll([name]) == [Capitalize(name)];
    }
  }

  lemma {:induction false} JoinLength(parts: seq<string>, a: string, b: string)
    requires |a| == |b|
    ensures |Join(CapitalizeAll(parts), a)| == |Join(parts, b)|
  {
    if |parts| > 1 {
      JoinLength(parts[1..], a, b);
      assert CapitalizeAll(parts)[1..] == CapitalizeAll(parts[1..]);
    }
  }

  /** When the name does not start with '-', every '-' becomes exactly one space: the length is kept. */
  lemma ConvertedMoveLength(name: string)
    requires name != "" && name[0] != '-'
    ensures |ConvertedMove(name)| == |name|
  {
    var parts := Split(name, '-');
    assert parts[0] != "";
    JoinLength(parts, " ", "-");
    JoinSplit(name, '-');
  }
}
