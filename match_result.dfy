/**
 * Reading a team-formation embed back (cogs/utils/match_result_commands.py): the player
 * names in a field, the two teams of an embed, the kind of formation a title names,
 * the one-line summary of a formation, and the winner the result buttons give.
 * The two regular expressions the source uses are written out as scanners with
 * Python's `re` semantics for these patterns: `.` matches anything but a newline,
 * `*?` takes the shortest match, and scanning resumes after each match.
 */
module MatchResult {
  import opened Wrappers
  import opened Text
  import opened Sequences

  // ----- `re.findall(r'\*\*(.*?)\*\*', s)` -----

  /** `t` starts with `**`. */
  predicate BoldAt(t: string)
  {
    |t| >= 2 && t[0] == '*' && t[1] == '*'
  }

  /** Where the lazy `(.*?)\*\*` ends in `t`: the first `**`, provided no newline comes before it. */
  function CloseBold(t: string): (r: Option<nat>)
    ensures r.Some? ==> r.value + 2 <= |t| && BoldAt(t[r.value..])
    ensures r.Some? ==> '\n' !in t[..r.value]
    decreases |t|
  {
    if |t| < 2 then None
    else if BoldAt(t) then Some(0)
    else if t[0] == '\n' then None
    else match CloseBold(t[1..]) {
      case None => None
      case Some(k) =>
        assert t[1..][k..] == t[k + 1..];
        assert t[..k + 1] == [t[0]] + t[1..][..k];
        Some(k + 1)
    }
  }

  /**
   * `re.findall(r'\*\*(.*?)\*\*', s)`: the texts between successive pairs of `**`. No
   * capture spans a newline, and each one uses up its two pairs of `**`.
   */
  function FindBold(s: string): (r: seq<string>)
    ensures forall k :: 0 <= k < |r| ==> '\n' !in r[k]
    ensures 4 * |r| <= |s|
    decreases |s|
  {
    if !BoldAt(s) then (if s == [] then [] else FindBold(s[1..]))
    else
      match CloseBold(s[2..]) {
        case Some(k) => [s[2..2 + k]] + FindBold(s[2 + k + 2..])
        case None => FindBold(s[1..])
      }
  }

  // ----- `re.sub(r'\s*\(MMR:.*?\)', '', p)` -----

  /** The length of the run of whitespace `s` starts with (what the greedy `\s*` takes). */
  function LeadingSpaces(s: string): (n: nat)
    ensures n <= |s|
    decreases |s|
  {
    if s != [] && IsSpace(s[0]) then 1 + LeadingSpaces(s[1..]) else 0
  }

  /** The run of whitespace ends at the first character that is not whitespace, if not before. */
  lemma {:induction false} LeadingSpacesStops(s: string, k: nat)
    requires k < |s| && !IsSpace(s[k])
    ensures LeadingSpaces(s) <= k
    decreases k
  {
    if k > 0 && IsSpace(s[0]) {
      assert s[1..][k - 1] == s[k];
      LeadingSpacesStops(s[1..], k - 1);
    }
  }

  /** Where the lazy `.*?\)` ends in `t`: just after the first `)`, provided no newline comes before it. */
  function CloseParen(t: string): (r: Option<nat>)
    ensures r.Some? ==> 0 < r.value <= |t| && t[r.value - 1] == ')'
    decreases |t|
  {
    if t == [] then None
    else if t[0] == ')' then Some(1)
    else if t[0] == '\n' then None
    else match CloseParen(t[1..]) {
      case None => None
      case Some(k) => Some(k + 1)
    }
  }

  const MmrOpen := "(MMR:"

  /** The length of the match of `\s*\(MMR:.*?\)` at the start of `s`, if it matches there. */
  function MmrMatch(s: string): (r: Option<nat>)
    ensures r.Some? ==> 0 < r.value <= |s|
  {
    var w := LeadingSpaces(s);
    if StartsWith(s[w..], MmrOpen) then
      match CloseParen(s[w + |MmrOpen|..]) {
        case Some(j) => Some(w + |MmrOpen| + j)
        case None => None
      }
    else None
  }

  /** `re.sub(r'\s*\(MMR:.*?\)', '', s)`: every such match removed, scanning left to right. */
  function RemoveMmr(s: string): (r: string)
    ensures |r| <= |s|
    decreases |s|
  {
    if s == [] then []
    else match MmrMatch(s) {
      case Some(n) => RemoveMmr(s[n..])
      case None => [s[0]] + RemoveMmr(s[1..])
    }
  }

  /** `re.sub(...).strip()` of one captured text. */
  function CleanName(p: string): string
  {
    Strip(RemoveMmr(p))
  }

  /** The names `extract_player_names` keeps from the captured texts `ps`, in order. */
  function CleanNames(ps: seq<string>): (r: seq<string>)
    ensures forall k :: 0 <= k < |r| ==> r[k] != ""
    ensures |r| <= |ps|
    decreases |ps|
  {
    if ps == [] then []
    else
      var rest := CleanNames(ps[..|ps| - 1]);
      var c := CleanName(ps[|ps| - 1]);
      if c != "" then rest + [c] else rest
  }

  /** `extract_player_names(field_value)`: non-empty, stripped names, at most one per capture. */
  function PlayerNamesOf(fieldValue: string): (r: seq<string>)
    ensures forall k :: 0 <= k < |r| ==> r[k] != "" && Strip(r[k]) == r[k]
    ensures |r| <= |FindBold(fieldValue)|
  {
    CleanNamesStripped(FindBold(fieldValue));
    CleanNames(FindBold(fieldValue))
  }

  /** The loop of `extract_player_names` over the captured texts. */
  method ExtractPlayerNames(fieldValue: string) returns (clean: seq<string>)
    ensures clean == PlayerNamesOf(fieldValue)
  {
    var players := FindBold(fieldValue);
    clean := [];
    for i := 0 to |players|
      invariant clean == CleanNames(players[..i])
    {
      CleanNamesStep(players, i);
      var cleanName := Strip(RemoveMmr(players[i]));
      if cleanName != "" {
        clean := clean + [cleanName];
      }
    }
    assert players[..|players|] == players;
  }

  /** Cleaning one more captured text appends its cleaned form when that is not empty. */
  lemma CleanNamesStep(ps: seq<string>, i: nat)
    requires i < |ps|
    ensures CleanNames(ps[..i + 1]) == CleanNames(ps[..i]) + (if CleanName(ps[i]) != "" then [CleanName(ps[i])] else [])
  {
    assert ps[..i + 1][..i] == ps[..i];
  }

  /** A cleaned name is its own strip. */
  lemma CleanNameStripped(p: string)
    ensures Strip(CleanName(p)) == CleanName(p)
  {
    StripUnchanged(Strip(RemoveMmr(p)));
  }

  /** Every name kept is non-empty and already stripped. */
  lemma {:induction false} CleanNamesStripped(ps: seq<string>)
    ensures forall k :: 0 <= k < |CleanNames(ps)| ==> CleanNames(ps)[k] != "" && Strip(CleanNames(ps)[k]) == CleanNames(ps)[k]
    decreases |ps|
  {
    if ps != [] {
      var init := ps[..|ps| - 1];
      CleanNamesStripped(init);
      var rest := CleanNames(init);
      var c := CleanName(ps[|ps| - 1]);
      if c != "" {
        CleanNameStripped(ps[|ps| - 1]);
        var r := CleanNames(ps);
        assert r == rest + [c];
        forall k | 0 <= k < |r| ensures r[k] != "" && Strip(r[k]) == r[k] {
          if k < |rest| {
            assert r[k] == rest[k];
          }
        }
      } else {
        assert CleanNames(ps) == rest;
      }
    }
  }

  // ----- the scanners on the text the formation embed writes -----

  /** Where no `**` starts, scanning moves on by one character. */
  lemma FindBoldSkips(s: string)
    requires s != [] && s[0] != '*'
    ensures FindBold(s) == FindBold(s[1..])
  {
  }

  /** A string without `*` holds no bold text. */
  lemma {:induction false} SkipPlain(a: string, b: string)
    requires '*' !in a
    ensures FindBold(a + b) == FindBold(b)
    decreases |a|
  {
    if a == [] {
      assert a + b == b;
    } else {
      TailOfConcat(a, b);
      FindBoldSkips(a + b);
      SkipPlain(a[1..], b);
    }
  }

  /** The first `**` after a name without `*` or newline closes it. */
  lemma {:induction false} CloseAfterName(name: string, rest: string)
    requires '*' !in name && '\n' !in name
    ensures CloseBold(name + ("**" + rest)) == Some(|name|)
    decreases |name|
  {
    var t := name + ("**" + rest);
    if name == [] {
      assert t == "**" + rest;
      assert BoldAt(t);
    } else {
      TailOfConcat(name, "**" + rest);
      CloseAfterName(name[1..], rest);
      CloseStep(t);
    }
  }

  /** A character other than `*` or a newline is passed over by the closing scan. */
  lemma CloseStep(t: string)
    requires |t| >= 2 && t[0] != '*' && t[0] != '\n'
    ensures CloseBold(t) == match CloseBold(t[1..]) { case None => None case Some(k) => Some(k + 1) }
  {
  }

  /** Bold text at the start of a string is the first capture. */
  lemma BoldFirst(name: string, rest: string)
    requires '*' !in name && '\n' !in name
    ensures FindBold("**" + (name + ("**" + rest))) == [name] + FindBold(rest)
  {
    var s := "**" + (name + ("**" + rest));
    assert BoldAt(s);
    assert s[2..] == name + ("**" + rest);
    CloseAfterName(name, rest);
    assert s[2..2 + |name|] == name;
    assert s[2 + |name| + 2..] == rest;
  }

  /** Bold text preceded by plain text is the next capture. */
  lemma BoldThenRest(pre: string, name: string, rest: string)
    requires '*' !in pre && '*' !in name && '\n' !in name
    ensures FindBold(pre + ("**" + (name + ("**" + rest)))) == [name] + FindBold(rest)
  {
    SkipPlain(pre, "**" + (name + ("**" + rest)));
    BoldFirst(name, rest);
  }

  /**
   * A name without `(MMR:` in it has nothing for the substitution to remove, when it ends
   * in a non-space and what follows it is empty or starts with a space.
   */
  lemma {:induction false} RemoveMmrKeeps(a: string, b: string)
    requires !Contains(a, MmrOpen)
    requires a == [] || !IsSpace(a[|a| - 1])
    requires b == [] || b[0] == ' '
    ensures RemoveMmr(a + b) == a + RemoveMmr(b)
    decreases |a|
  {
    if a == [] {
      assert a + b == b;
    } else {
      assert !Contains(a[1..], MmrOpen) by {
        if Contains(a[1..], MmrOpen) {
          assert OccursAt(a, a[1..], 1);
          ContainsTransitive(a, a[1..], MmrOpen);
          assert false;
        }
      }
      RemoveMmrKeeps(a[1..], b);
      NoMmrMatch(a, b);
      RemoveMmrKeepsStep(a, b);
    }
  }

  /** One step of the induction: the first character of such a name is copied. */
  lemma RemoveMmrKeepsStep(a: string, b: string)
    requires a != [] && MmrMatch(a + b) == None
    requires RemoveMmr(a[1..] + b) == a[1..] + RemoveMmr(b)
    ensures RemoveMmr(a + b) == a + RemoveMmr(b)
  {
    var s := a + b;
    RemoveMmrCopies(s);
    TailOfConcat(a, b);
    assert RemoveMmr(s) == [a[0]] + (a[1..] + RemoveMmr(b));
    ConsOfConcat(a, RemoveMmr(b));
  }

  /** Where no match starts, the first character is copied. */
  lemma RemoveMmrCopies(s: string)
    requires s != [] && MmrMatch(s) == None
    ensures RemoveMmr(s) == [s[0]] + RemoveMmr(s[1..])
  {
  }

  /**
   * No match starts inside such a name: its whitespace run ends inside the name, and
   * `(MMR:` neither lies within the name nor reaches into a text that starts with a space.
   */
  lemma NoMmrMatch(a: string, b: string)
    requires a != [] && !Contains(a, MmrOpen) && !IsSpace(a[|a| - 1])
    requires b == [] || b[0] == ' '
    ensures MmrMatch(a + b) == None
  {
    var s := a + b;
    var w := LeadingSpaces(s);
    assert s[|a| - 1] == a[|a| - 1];
    LeadingSpacesStops(s, |a| - 1);
    if w + |MmrOpen| <= |a| {
      assert s[w..w + |MmrOpen|] == a[w..w + |MmrOpen|];
      assert !OccursAt(a, MmrOpen, w);
    } else if w + |MmrOpen| <= |s| {
      var k := |a| - w;
      assert s[w..][k] == b[0] == ' ';
      assert MmrOpen[k] != ' ';
    }
    assert !StartsWith(s[w..], MmrOpen);
  }

  /** Such a name, stripped and non-empty, comes through cleaning unchanged. */
  lemma CleanNameKeeps(name: string)
    requires NameOk(name)
    ensures CleanName(name) == name
  {
    RemoveMmrKeeps(name, "");
    assert name + "" == name;
    StripUnchanged(name);
  }

  /**
   * The names a formation embed shows that read back unchanged: not empty, no `*`, newline
   * or `(MMR:` inside, and no whitespace at either end.
   */
  predicate NameOk(name: string)
  {
    && name != [] && '*' !in name && '\n' !in name && !Contains(name, MmrOpen)
    && !IsSpace(name[0]) && !IsSpace(name[|name| - 1])
  }

  /** One player as a formation embed lists them: an optional position, the name and the rating. */
  datatype Line = Line(position: Option<string>, player: string, mmr: int)

  /** What a line shows before the bold name. */
  function Lead(l: Line): string
  {
    if l.position.Some? then l.position.value + ": " else ""
  }

  /** What a line shows after the bold name. */
  function Trail(l: Line): string
  {
    " (MMR: " + IntToString(l.mmr) + ")"
  }

  /**
   * One line of a team field as cogs/utils/team_commands.py:344-346 writes it:
   * `"{position}: **{player}** (MMR: {mmr})"`, or without the position.
   */
  function FieldLine(l: Line): (r: string)
    ensures LineOk(l) ==> FindBold(r) == [l.player]
  {
    var r := Lead(l) + ("**" + (l.player + ("**" + Trail(l))));
    assert LineOk(l) ==> FindBold(r) == [l.player] by {
      if LineOk(l) {
        PlainParts(l);
        BoldThenRest(Lead(l), l.player, Trail(l));
        SkipPlain(Trail(l), "");
        assert Trail(l) + "" == Trail(l);
      }
    }
    r
  }

  /** A field value: the lines joined by newlines. */
  function FieldValue(lines: seq<Line>): string
  {
    Join(Rendered(lines), "\n")
  }

  /** Each line of a field as the embed writes it. */
  function Rendered(lines: seq<Line>): (r: seq<string>)
    ensures |r| == |lines| && forall i :: 0 <= i < |lines| ==> r[i] == FieldLine(lines[i])
  {
    seq(|lines|, i requires 0 <= i < |lines| => FieldLine(lines[i]))
  }

  /** The players of the lines, in order. */
  function Players(lines: seq<Line>): (r: seq<string>)
    ensures |r| == |lines|
  {
    seq(|lines|, i requires 0 <= i < |lines| => lines[i].player)
  }

  /** A line the scanners read back exactly: a readable name and a position without `*`. */
  predicate LineOk(l: Line)
  {
    NameOk(l.player) && (l.position.Some? ==> '*' !in l.position.value)
  }

  lemma IntToStringPlain(i: int)
    ensures '*' !in IntToString(i)
  {
    var s := if i < 0 then NatToString(-i) else NatToString(i);
    assert AllDigits(s);
    assert forall k :: 0 <= k < |s| ==> s[k] != '*';
  }

  /** Neither the lead nor the trail of a line holds a `*` when its position does not. */
  lemma PlainParts(l: Line)
    requires l.position.Some? ==> '*' !in l.position.value
    ensures '*' !in Lead(l) && '*' !in Trail(l)
  {
    IntToStringPlain(l.mmr);
  }

  /** A line followed by more text, regrouped around its bold name. */
  lemma LineShape(l: Line, rest: string)
    ensures FieldLine(l) + rest == Lead(l) + ("**" + (l.player + ("**" + (Trail(l) + rest))))
  {
  }

  /** Joining two or more texts: the first, the separator, then the rest joined. */
  lemma JoinCons(items: seq<string>, sep: string)
    requires |items| >= 2
    ensures Join(items, sep) == items[0] + (sep + Join(items[1..], sep))
  {
  }

  /** The rendered lines of a tail are the tail of the rendered lines. */
  lemma RenderedTail(lines: seq<Line>)
    requires lines != []
    ensures Rendered(lines[1..]) == Rendered(lines)[1..]
    ensures Players(lines) == [lines[0].player] + Players(lines[1..])
  {
  }

  /** The bold texts of the joined lines are the players, in order. */
  lemma {:induction false} FieldValueBold(lines: seq<Line>)
    requires forall i :: 0 <= i < |lines| ==> LineOk(lines[i])
    ensures FindBold(FieldValue(lines)) == Players(lines)
    decreases |lines|
  {
    if lines != [] {
      var l := lines[0];
      assert LineOk(l);
      RenderedTail(lines);
      var rendered := Rendered(lines);
      if |lines| == 1 {
        assert FieldValue(lines) == FieldLine(l) + "";
        LineThenRest(l, "");
        assert Players(lines[1..]) == [];
      } else {
        var later := FieldValue(lines[1..]);
        JoinCons(rendered, "\n");
        assert FieldValue(lines) == Join(rendered, "\n");
        assert rendered[0] == FieldLine(l);
        assert later == Join(rendered[1..], "\n");
        LineThenRest(l, "\n" + later);
        SkipPlain("\n", later);
        FieldValueBold(lines[1..]);
      }
    }
  }

  /** The bold text of a readable line, then that of what follows it. */
  lemma LineThenRest(l: Line, rest: string)
    requires LineOk(l)
    ensures FindBold(FieldLine(l) + rest) == [l.player] + FindBold(rest)
  {
    PlainParts(l);
    LineShape(l, rest);
    BoldThenRest(Lead(l), l.player, Trail(l) + rest);
    SkipPlain(Trail(l), rest);
  }

  /** Cleaning names that need no cleaning keeps them all. */
  lemma {:induction false} CleanNamesKeep(ps: seq<string>)
    requires forall i :: 0 <= i < |ps| ==> NameOk(ps[i])
    ensures CleanNames(ps) == ps
    decreases |ps|
  {
    if ps != [] {
      var init := ps[..|ps| - 1];
      var last := ps[|ps| - 1];
      assert forall i :: 0 <= i < |init| ==> NameOk(init[i]) by {
        forall i | 0 <= i < |init| ensures NameOk(init[i]) {
          assert init[i] == ps[i];
        }
      }
      CleanNamesKeep(init);
      CleanNameKeeps(last);
      SnocSplit(ps);
    }
  }

  /** Reading back a team field gives exactly the players it shows, in order. */
  lemma FieldRoundTrip(lines: seq<Line>)
    requires forall i :: 0 <= i < |lines| ==> LineOk(lines[i])
    ensures PlayerNamesOf(FieldValue(lines)) == Players(lines)
  {
    FieldValueBold(lines);
    var ps := Players(lines);
    assert forall i :: 0 <= i < |ps| ==> NameOk(ps[i]) by {
      forall i | 0 <= i < |ps| ensures NameOk(ps[i]) {
        assert LineOk(lines[i]);
      }
    }
    CleanNamesKeep(ps);
  }

  /** A rating written inside the bold text is removed along with the space before it. */
  lemma MmrInsideBold(name: string, digits: string)
    requires NameOk(name) && ')' !in digits && '\n' !in digits
    ensures CleanName(name + (" (MMR: " + digits + ")")) == name
  {
    var b := " (MMR: " + digits + ")";
    RemoveMmrKeeps(name, b);
    MmrSuffixRemoved(digits);
    assert name + [] == name;
    StripUnchanged(name);
  }

  /** The substitution removes ` (MMR: ...)` entirely. */
  lemma MmrSuffixRemoved(digits: string)
    requires ')' !in digits && '\n' !in digits
    ensures RemoveMmr(" (MMR: " + digits + ")") == []
  {
    var b := " (MMR: " + digits + ")";
    assert b[1..][0] == '(';
    assert LeadingSpaces(b[1..]) == 0;
    assert LeadingSpaces(b) == 1;
    assert b[1..][..|MmrOpen|] == MmrOpen;
    assert b[1 + |MmrOpen|..] == (" " + digits) + ")";
    CloseParenAfter(" " + digits);
    assert MmrMatch(b) == Some(|b|);
    assert b[|b|..] == [];
  }

  lemma {:induction false} CloseParenAfter(t: string)
    requires ')' !in t && '\n' !in t
    ensures CloseParen(t + ")") == Some(|t| + 1)
    decreases |t|
  {
    if t != [] {
      TailOfConcat(t, ")");
      CloseParenAfter(t[1..]);
    }
  }

  // ----- `parse_team_from_embed` -----

  /** One field of an embed. */
  datatype Field = Field(name: string, value: string)

  predicate BlueField(f: Field)
  {
    Contains(f.name, "블루팀") || Contains(f.name, "🔵")
  }

  predicate RedField(f: Field)
  {
    Contains(f.name, "레드팀") || Contains(f.name, "🔴")
  }

  /** The field sets the blue team (`blue`) or the red team: the blue test comes first. */
  predicate Hit(f: Field, blue: bool)
  {
    if blue then BlueField(f) else !BlueField(f) && RedField(f)
  }

  /** The index of the last field that sets that team, if any does. */
  function LastHit(fields: seq<Field>, blue: bool): (r: Option<nat>)
    ensures r.Some? ==> r.value < |fields| && Hit(fields[r.value], blue)
    ensures r.Some? ==> forall j :: r.value < j < |fields| ==> !Hit(fields[j], blue)
    ensures r.None? ==> forall k :: 0 <= k < |fields| ==> !Hit(fields[k], blue)
    decreases |fields|
  {
    if fields == [] then None
    else if Hit(fields[|fields| - 1], blue) then Some(|fields| - 1)
    else
      var init := fields[..|fields| - 1];
      assert forall k :: 0 <= k < |init| ==> init[k] == fields[k];
      LastHit(init, blue)
  }

  /** The team the last matching field names, and `[]` when no field matches. */
  function SideOf(fields: seq<Field>, blue: bool): (r: seq<string>)
    ensures r == match LastHit(fields, blue) {
      case None => []
      case Some(k) => PlayerNamesOf(fields[k].value)
    }
    decreases |fields|
  {
    if fields == [] then []
    else
      var init := fields[..|fields| - 1];
      var f := fields[|fields| - 1];
      if Hit(f, blue) then PlayerNamesOf(f.value)
      else
        assert LastHit(init, blue).Some? ==> init[LastHit(init, blue).value] == fields[LastHit(init, blue).value];
        SideOf(init, blue)
  }

  /** `parse_team_from_embed(embed)`: both teams, when each has exactly five names. */
  function TeamsOf(fields: seq<Field>): (r: Option<(seq<string>, seq<string>)>)
    ensures r.Some? ==> |r.value.0| == 5 && |r.value.1| == 5
  {
    var blue := SideOf(fields, true);
    var red := SideOf(fields, false);
    if |blue| == 5 && |red| == 5 then Some((blue, red)) else None
  }

  /** The loop of `parse_team_from_embed` over the fields. */
  method ParseTeamFromEmbed(fields: seq<Field>) returns (r: Option<(seq<string>, seq<string>)>)
    ensures r == TeamsOf(fields)
  {
    var blueTeam: seq<string> := [];
    var redTeam: seq<string> := [];
    for i := 0 to |fields|
      invariant blueTeam == SideOf(fields[..i], true)
      invariant redTeam == SideOf(fields[..i], false)
    {
      var field := fields[i];
      assert fields[..i + 1][..i] == fields[..i];
      if Contains(field.name, "블루팀") || Contains(field.name, "🔵") {
        blueTeam := ExtractPlayerNames(field.value);
      } else if Contains(field.name, "레드팀") || Contains(field.name, "🔴") {
        redTeam := ExtractPlayerNames(field.value);
      }
    }
    assert fields[..|fields|] == fields;
    if |blueTeam| == 5 && |redTeam| == 5 {
      return Some((blueTeam, redTeam));
    }
    return None;
  }

  /** A later field of a side replaces an earlier one, and a field of the other side leaves it alone. */
  lemma SideOfLater(fields: seq<Field>, f: Field, blue: bool)
    ensures SideOf(fields + [f], blue) == if Hit(f, blue) then PlayerNamesOf(f.value) else SideOf(fields, blue)
  {
    var all := fields + [f];
    assert all[..|all| - 1] == fields;
    assert all[|all| - 1] == f;
  }

  /** A field naming both sides sets only blue. */
  lemma BothMarkersMeanBlue(fields: seq<Field>, f: Field)
    requires BlueField(f) && RedField(f)
    ensures SideOf(fields + [f], true) == PlayerNamesOf(f.value)
    ensures SideOf(fields + [f], false) == SideOf(fields, false)
  {
    SideOfLater(fields, f, true);
    SideOfLater(fields, f, false);
  }

  /** The two fields a formation embed writes, named as cogs/utils/team_commands.py:349 and :371 name them. */
  function FormationFields(blue: seq<Line>, red: seq<Line>): seq<Field>
  {
    [Field("🔵 블루팀", FieldValue(blue)), Field("🔴 레드팀", FieldValue(red))]
  }

  /** A formation of five against five reads back as the same two teams. */
  lemma FormationRoundTrip(blue: seq<Line>, red: seq<Line>)
    requires |blue| == 5 && |red| == 5
    requires forall i :: 0 <= i < 5 ==> LineOk(blue[i]) && LineOk(red[i])
    ensures TeamsOf(FormationFields(blue, red)) == Some((Players(blue), Players(red)))
  {
    var fields := FormationFields(blue, red);
    FieldRoundTrip(blue);
    FieldRoundTrip(red);
    var b := fields[0];
    var r := fields[1];
    FieldNamesClassified(b, r);
    assert fields == [b] + [r];
    SideOfLater([b], r, true);
    SideOfLater([b], r, false);
    SideOfLater([], b, true);
    SideOfLater([], b, false);
    assert [] + [b] == [b];
  }

  /** The blue field's name passes the blue test; the red field's name fails it and passes the red test. */
  lemma FieldNamesClassified(b: Field, r: Field)
    requires b.name == "🔵 블루팀" && r.name == "🔴 레드팀"
    ensures BlueField(b) && RedField(r) && !BlueField(r)
  {
    assert OccursAt(b.name, "🔵", 0);
    assert OccursAt(r.name, "🔴", 0);
    NotContains(r.name, "🔵");
    NotContains(r.name, "블루팀");
  }

  /** A text none of whose characters starts `p` does not contain `p`. */
  lemma NotContains(s: string, p: string)
    requires p != [] && p[0] !in s
    ensures !Contains(s, p)
  {
    forall i: nat | i <= |s| ensures !OccursAt(s, p, i) {
      if i + |p| <= |s| {
        assert s[i..i + |p|][0] == s[i];
      }
    }
  }

  // ----- `determine_formation_type` and `format_team_display` -----

  const PositionAndMmr := "포지션 + MMR 밸런싱"
  const MmrOnly := "MMR 밸런싱만"
  const NewCombination := "새로운 조합 추천"
  const UnknownKind := "알 수 없는 방식"

  /** Each special phrase contains the words the next test looks for. */
  lemma PhraseWords(title: string)
    ensures Contains(title, "포지션+MMR") ==> Contains(title, "포지션") && Contains(title, "MMR")
    ensures Contains(title, "MMR만") ==> Contains(title, "MMR")
  {
    if Contains(title, "포지션+MMR") {
      assert OccursAt("포지션+MMR", "포지션", 0);
      assert OccursAt("포지션+MMR", "MMR", 4);
      ContainsTransitive(title, "포지션+MMR", "포지션");
      ContainsTransitive(title, "포지션+MMR", "MMR");
    }
    if Contains(title, "MMR만") {
      assert OccursAt("MMR만", "MMR", 0);
      ContainsTransitive(title, "MMR만", "MMR");
    }
  }

  /**
   * `determine_formation_type(title)`, with its tests in their order: a title is of no
   * known kind exactly when it names neither MMR nor an alternative.
   */
  function FormationType(title: string): (r: string)
    ensures r == PositionAndMmr || r == MmrOnly || r == NewCombination || r == UnknownKind
    ensures r == UnknownKind <==>
      !Contains(title, "MMR") && !Contains(title, "대안") && !Contains(title, "다양성")
  {
    PhraseWords(title);
    if Contains(title, "포지션+MMR") || (Contains(title, "포지션") && Contains(title, "MMR")) then PositionAndMmr
    else if Contains(title, "MMR만") || (Contains(title, "MMR") && !Contains(title, "포지션")) then MmrOnly
    else if Contains(title, "대안") || Contains(title, "다양성") then NewCombination
    else UnknownKind
  }

  /**
   * The conditions reduce to: both words → position and MMR; "MMR" alone → MMR only; then
   * the alternative titles. The two special phrases add nothing, since each contains
   * the words its condition checks.
   */
  lemma FormationTypeByWords(title: string)
    ensures FormationType(title) ==
      if Contains(title, "포지션") && Contains(title, "MMR") then PositionAndMmr
      else if Contains(title, "MMR") then MmrOnly
      else if Contains(title, "대안") || Contains(title, "다양성") then NewCombination
      else UnknownKind
  {
    PhraseWords(title);
  }

  /** `", ".join(team[:3]) + ("..." if len(team) > 3 else "")`. */
  function ShortNames(team: seq<string>): (r: string)
    ensures |team| <= 3 ==> r == Join(team, ", ")
    ensures |team| > 3 ==> EndsWith(r, "...")
  {
    Join(PyTake(team, 3), ", ") + (if |team| > 3 then "..." else "")
  }

  /** `format_team_display(blue_team, red_team)`. */
  function TeamDisplay(blue: seq<string>, red: seq<string>): (r: string)
    ensures StartsWith(r, "🔵 " + ShortNames(blue)) && EndsWith(r, " vs 🔴 " + ShortNames(red))
  {
    "🔵 " + ShortNames(blue) + " vs 🔴 " + ShortNames(red)
  }

  /** Up to three names are all shown; past three only the first three are, followed by "...", whatever the rest. */
  lemma ShortNamesShape(team: seq<string>, other: seq<string>)
    ensures |team| <= 3 ==> ShortNames(team) == Join(team, ", ")
    ensures |team| > 3 && other != [] ==> ShortNames(team) == ShortNames(team[..3] + other)
    ensures |team| > 3 ==> EndsWith(ShortNames(team), "...")
  {
    if |team| > 3 && other != [] {
      assert (team[..3] + other)[..3] == team[..3];
    }
  }

  // ----- the winner -----

  /** `"blue" if blue_result == "승" else "red"`. */
  function WinnerOf(blueResult: string): (r: string)
    ensures r == "blue" || r == "red"
  {
    if blueResult == "승" then "blue" else "red"
  }

  /** Blue wins exactly when its result is "승"; any other value, "패" included, makes red the winner. */
  lemma WinnerIsBlueIff(blueResult: string)
    ensures WinnerOf(blueResult) == "blue" <==> blueResult == "승"
    ensures WinnerOf(blueResult) == "red" <==> blueResult != "승"
  {
  }
}
