/**
 What the path passes make of a file header, however its path is spelled and with or without a time
 stamp (services/dev_agent/service.py:332-409 and 477-507).
 */
module HeaderForms {
  import opened HeaderRepair
  import opened Options
  import opened PatchPaths
  import opened Seqs
  import opened Text
  import PathsTwice

  /** Nothing, or a tab and what follows it up to a character that is no space. */
  predicate IsStamp(stamp: string) {
    stamp != "" ==> stamp[0] == '\t' && !IsSpace(stamp[|stamp| - 1])
  }

  /** A name as it stands in a header: not blank at its ends, without tabs. */
  predicate IsName(name: string) {
    name != "" && Strip(name) == name && '\t' !in name
  }

  function Header(newFile: bool, name: string, stamp: string): string {
    Prefix(newFile) + (name + stamp)
  }

  lemma NameEnds(name: string)
    requires IsName(name)
    ensures !IsSpace(name[|name| - 1]) && !IsSpace(name[0])
  {
    PathsTwice.StripIsTrim(name);
  }

  lemma HeaderReads(newFile: bool, name: string, stamp: string)
    requires IsName(name) && IsStamp(stamp)
    ensures var line := Header(newFile, name, stamp);
            && |line| >= 4 && line[..4] == Prefix(newFile) && line[4..] == name + stamp
            && ReadHeader(line) == HeaderText(name, stamp)
  {
    NameEnds(name);
    PathsTwice.ReadConverted(name, stamp);
    var line := Header(newFile, name, stamp);
    assert line[..4] == Prefix(newFile) && line[4..] == name + stamp;
  }

  // ---- Spellings of one path ----

  const SIDES: set<string> := {"", "a/", "b/"}
  const LEADS: set<string> := {"", "/", "/workspace/"}

  /** The spelling has the side only in front, and what is left behind it and the lead is relative. */
  predicate IsSpelling(side: string, lead: string, raw: string) {
    && side in SIDES && lead in LEADS && raw != ""
    && (side == "" ==> !HasSide(lead + raw))
    && Slashes(raw)[0] != '/'
    && (lead == "/" ==> !StartsWith(Slashes(raw), "workspace/"))
  }

  lemma SideGoes(side: string, rest: string)
    requires side in SIDES && (side == "" ==> !HasSide(rest))
    ensures WithoutSide(side + rest) == rest
  {
    if side == "" {
      assert side + rest == rest;
    } else {
      assert side <= side + rest && (side + rest)[2..] == rest;
    }
  }

  lemma SlashesConcat(lead: string, raw: string)
    requires lead in LEADS
    ensures Slashes(lead + raw) == lead + Slashes(raw)
  {
  }

  lemma LeadGoes(lead: string, path: string)
    requires lead in LEADS && path != "" && path[0] != '/' && (lead == "/" ==> !StartsWith(path, "workspace/"))
    ensures Relative(lead + path) == path
  {
    if lead == "" {
      assert lead + path == path;
      NoSlashFirst(path);
    } else if lead == "/" {
      OneSlashFirst(path);
    } else {
      assert "/workspace/" <= lead + path && (lead + path)[11..] == path;
    }
  }

  lemma NoSlashFirst(path: string)
    requires path != "" && path[0] != '/'
    ensures Relative(path) == path
  {
    assert "/"[0] == '/' && "/workspace/"[0] == '/';
  }

  lemma BehindSlash(path: string)
    ensures StartsWith("/" + path, "/workspace/") ==> StartsWith(path, "workspace/")
  {
    var norm := "/" + path;
    if "/workspace/" <= norm {
      assert "/workspace/"[1..] == "workspace/";
      forall i | 0 <= i < 10 ensures path[i] == "workspace/"[i] { assert norm[i + 1] == "/workspace/"[i + 1]; }
    }
  }

  lemma OneSlashFirst(path: string)
    requires !StartsWith(path, "workspace/")
    ensures Relative("/" + path) == path
  {
    BehindSlash(path);
    var norm := "/" + path;
    assert "/" <= norm && norm[1..] == path;
  }

  lemma NameConverts(side: string, lead: string, raw: string)
    requires IsSpelling(side, lead, raw)
    ensures ConvertName(side + (lead + raw)) == Slashes(raw)
  {
    SideGoes(side, lead + raw);
    SlashesConcat(lead, raw);
    LeadGoes(lead, Slashes(raw));
  }

  /** The path pass takes off one side and one lead, turns backslashes over and keeps the time stamp. */
  lemma SpellingConverts(newFile: bool, side: string, lead: string, raw: string, stamp: string)
    requires IsSpelling(side, lead, raw) && IsName(side + (lead + raw)) && IsStamp(stamp) && !IsMarker(side + (lead + raw))
    ensures var line := Header(newFile, side + (lead + raw), stamp);
            |line| >= 4 && ConvertHeader(line) == Header(newFile, Slashes(raw), stamp)
  {
    HeaderReads(newFile, side + (lead + raw), stamp);
    NameConverts(side, lead, raw);
  }

  /** The prefix pass gives a name its side if it has none, and keeps the time stamp. */
  lemma SideIsGiven(newFile: bool, name: string, stamp: string)
    requires IsName(name) && IsStamp(stamp) && !IsMarker(name)
    ensures var line := Header(newFile, name, stamp);
            |line| >= 4 && NormalizeHeader(line) == Header(newFile, if HasSide(name) then name else Side(newFile) + name, stamp)
  {
    var line := Header(newFile, name, stamp);
    HeaderReads(newFile, name, stamp);
    PrefixTells(newFile, name + stamp);
    ConcatAssoc(Side(newFile), name, stamp);
  }

  lemma PrefixTells(newFile: bool, rest: string)
    ensures StartsWith(Prefix(newFile) + rest, "---") <==> !newFile
  {
    if newFile {
      assert (Prefix(newFile) + rest)[0] == '+' && "---"[0] == '-';
    } else {
      assert "---" <= "--- " <= Prefix(newFile) + rest;
    }
  }

  /** Absolute in either way, relative, with a side or with backslashes: after both passes the header is the one git writes. */
  lemma SpellingsAgree(newFile: bool, side: string, lead: string, raw: string, stamp: string)
    requires IsSpelling(side, lead, raw) && IsName(side + (lead + raw)) && IsStamp(stamp) && !IsMarker(side + (lead + raw))
    requires IsName(Slashes(raw)) && !HasSide(Slashes(raw)) && !IsMarker(Slashes(raw))
    ensures var line := Header(newFile, side + (lead + raw), stamp);
            && |line| >= 4 && |ConvertHeader(line)| >= 4
            && NormalizeHeader(ConvertHeader(line)) == Header(newFile, Side(newFile) + Slashes(raw), stamp)
  {
    SpellingConverts(newFile, side, lead, raw, stamp);
    SideIsGiven(newFile, Slashes(raw), stamp);
  }

  // ---- Null markers and refused paths ----

  /** A null marker, in whatever case, goes through both passes and the check as it is. */
  lemma MarkerStays(newFile: bool, name: string, stamp: string)
    requires IsName(name) && IsStamp(stamp) && Lower(name) in {"/dev/null", "nul", "null"}
    ensures var line := Header(newFile, name, stamp);
            && |line| >= 4
            && ConvertHeader(line) == line && NormalizeHeader(line) == line && CheckHeader(line).None?
  {
    HeaderReads(newFile, name, stamp);
  }

  lemma CheckOf(line: string, path: string)
    requires |line| >= 4 && !IsMarker(ReadHeader(line).name) && WithoutSide(ReadHeader(line).name) == path && path != ""
    ensures CheckHeader(line) ==
              if Slashes(path)[0] == '/' then Some(Absolute(path))
              else if ".." in SplitOn(Slashes(path), '/') then Some(Unsafe(path)) else None
  {
    assert StartsWith(Slashes(path), "/") <==> Slashes(path)[0] == '/';
  }

  /** A header is refused exactly when what stands behind its side is absolute or has a component "..". */
  lemma RefusedIff(newFile: bool, side: string, path: string, stamp: string)
    requires side in SIDES && (side == "" ==> !HasSide(path)) && path != ""
    requires IsName(side + path) && IsStamp(stamp) && !IsMarker(side + path)
    ensures var line := Header(newFile, side + path, stamp);
            && |line| >= 4
            && (CheckHeader(line) == Some(Absolute(path)) <==> Slashes(path)[0] == '/')
            && (CheckHeader(line) == Some(Unsafe(path)) <==> Slashes(path)[0] != '/' && ".." in SplitOn(Slashes(path), '/'))
            && (CheckHeader(line) == None <==> Slashes(path)[0] != '/' && ".." !in SplitOn(Slashes(path), '/'))
  {
    HeaderReads(newFile, side + path, stamp);
    SideGoes(side, path);
    CheckOf(Header(newFile, side + path, stamp), path);
  }
}
