/** The file names of the rendered charts: the raise chart that
    `generateGraph` asks the renderer to write, and the resolution chart path
    that `simulateResolution` derives from it. The graphs directory and the
    ISO timestamp are inputs; directory joining is plain `/` concatenation. */
module GraphPaths {
  import opened JsText

  const Extension: string := ".png"
  const ResolvedExtension: string := "_resolved.png"

  /** The timestamp part of a chart name: the ISO timestamp with every `:`
      and `.` removed. */
  function StampToken(iso: string): (r: string)
    ensures '.' !in r && ':' !in r
    ensures forall c :: c != ':' && c != '.' ==> multiset(r)[c] == multiset(iso)[c]
  {
    RemoveChars(iso, {':', '.'})
  }

  /** The token of a timestamp is the tokens of its parts, in order. */
  lemma StampTokenConcat(a: string, b: string)
    ensures StampToken(a + b) == StampToken(a) + StampToken(b)
  {
    RemoveCharsConcat(a, b, {':', '.'});
  }

  /** `toISOString()` gives `<date>T<hh>:<mm>:<ss>.<fraction>Z`: the token is
      the four parts with the separators dropped, in order. */
  lemma StampTokenOfIso(day: string, mm: string, ss: string, fz: string)
    requires NoSeparator(day) && NoSeparator(mm) && NoSeparator(ss) && NoSeparator(fz)
    ensures StampToken(day + ":" + mm + ":" + ss + "." + fz) == day + mm + ss + fz
  {
    var p1 := day + ":" + mm;
    var p2 := p1 + ":" + ss;
    assert StampToken(p1) == day + mm by {
      KeptPart(day);
      SeparatorThenPart(day, ':', mm);
    }
    assert StampToken(p2) == day + mm + ss by {
      SeparatorThenPart(p1, ':', ss);
    }
    SeparatorThenPart(p2, '.', fz);
  }

  /** Appending a separator and a separator-free part adds just that part. */
  lemma SeparatorThenPart(p: string, sep: char, q: string)
    requires sep == ':' || sep == '.'
    requires NoSeparator(q)
    ensures StampToken(p + [sep] + q) == StampToken(p) + q
  {
    StampTokenConcat(p + [sep], q);
    SeparatorDropped(p, sep);
    KeptPart(q);
  }

  lemma SeparatorDropped(p: string, sep: char)
    requires sep == ':' || sep == '.'
    ensures StampToken(p + [sep]) == StampToken(p)
  {
    StampTokenConcat(p, [sep]);
    RemoveCharsOfChar(sep, {':', '.'});
  }

  predicate NoSeparator(p: string) {
    forall i :: 0 <= i < |p| ==> p[i] != ':' && p[i] != '.'
  }

  lemma KeptPart(p: string)
    requires NoSeparator(p)
    ensures StampToken(p) == p
  {
    RemoveCharsNoop(p, {':', '.'});
  }

  /** The chart name before its extension: the alert name lower-cased with
      spaces turned into underscores, then `_` and the timestamp token. */
  function GraphBaseName(name: string, iso: string): string {
    ReplaceChar(ToLower(name), ' ', '_') + "_" + StampToken(iso)
  }

  function GraphFileName(name: string, iso: string): string {
    GraphBaseName(name, iso) + Extension
  }

  function GraphPath(dir: string, name: string, iso: string): string {
    dir + "/" + GraphFileName(name, iso)
  }

  /** `originalGraphPath.replace('.png', '_resolved.png')`: the first `.png`
      in the whole path is replaced, wherever it is. */
  function ResolutionPath(p: string): (r: string)
    ensures !Includes(p, Extension) ==> r == p
    ensures Includes(p, Extension) ==> |r| == |p| + 9
    ensures IndexOf(p, Extension).Some? ==>
      var i := IndexOf(p, Extension).value; r == p[..i] + "_resolved" + p[i..]
  {
    match IndexOf(p, Extension)
    case None => ReplaceFirst(p, Extension, ResolvedExtension)
    case Some(i) =>
      ResolutionSplice(p, i);
      ReplaceFirst(p, Extension, ResolvedExtension)
  }

  /** Replacing `.png` by `_resolved.png` at its first occurrence inserts
      `_resolved` there and keeps everything else. */
  lemma ResolutionSplice(p: string, i: nat)
    requires OccursAt(p, Extension, i)
    requires forall j :: 0 <= j < i ==> !OccursAt(p, Extension, j)
    ensures ReplaceFirst(p, Extension, ResolvedExtension) == p[..i] + "_resolved" + p[i..]
  {
    ReplaceFirstAt(p, Extension, ResolvedExtension, i);
    assert ResolvedExtension == "_resolved" + Extension;
    assert p[i..] == Extension + p[i + |Extension|..] by {
      assert p[i..i + |Extension|] == Extension;
    }
  }

  /** The chart name for a dot-free alert name has no dot, so the only dot
      of the chart file name is the one of its extension. */
  lemma GraphBaseNameHasNoDot(name: string, iso: string)
    requires '.' !in name
    ensures '.' !in GraphBaseName(name, iso)
  {
    var low := ToLower(name);
    forall i | 0 <= i < |low|
      ensures low[i] != '.'
    {
      assert name[i] != '.';
    }
    assert '.' !in ReplaceChar(low, ' ', '_');
  }

  /** For a chart written under a directory whose name holds no `.png`, the
      derived resolution path is the same directory and the same name with
      `_resolved` before the extension. */
  lemma ResolutionOfGraphPath(dir: string, name: string, iso: string)
    requires !Includes(dir, Extension)
    requires '.' !in name
    ensures ResolutionPath(GraphPath(dir, name, iso)) == dir + "/" + GraphBaseName(name, iso) + ResolvedExtension
  {
    var base := GraphBaseName(name, iso);
    GraphBaseNameHasNoDot(name, iso);
    var s := GraphPath(dir, name, iso);
    assert s == dir + "/" + base + Extension;
    var i := |dir| + 1 + |base|;
    assert s[i..i + 4] == Extension;
    assert OccursAt(s, Extension, i);
    forall j | 0 <= j < i
      ensures !OccursAt(s, Extension, j)
    {
      if j + 4 <= |dir| {
        assert s[j..j + 4] == dir[j..j + 4];
        assert !OccursAt(dir, Extension, j);
      } else if j < |dir| {
        assert s[|dir|] == '/';
        assert s[j..j + 4][|dir| - j] == s[|dir|];
      } else if j == |dir| {
        assert s[j] == '/';
        assert s[j..j + 4][0] == '/';
      } else {
        assert s[j] == base[j - |dir| - 1];
        assert s[j..j + 4][0] == s[j];
      }
    }
    ReplaceFirstAt(s, Extension, ResolvedExtension, i);
    assert s[..i] == dir + "/" + base;
    assert s[i + 4..] == [];
  }

  /** The resolution chart never overwrites the raise chart it came from. */
  lemma ResolutionPathIsNewFile(dir: string, name: string, iso: string)
    ensures ResolutionPath(GraphPath(dir, name, iso)) != GraphPath(dir, name, iso)
  {
    var s := GraphPath(dir, name, iso);
    IncludesInfix(dir + "/" + GraphBaseName(name, iso), Extension, "");
    assert s == dir + "/" + GraphBaseName(name, iso) + Extension + "";
  }
}
