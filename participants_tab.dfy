/** The participant entry logic of the participants tab: the single-add record and the
    line-oriented bulk parser with keyword role detection. */
module ParticipantsTab {
  import opened Wrappers
  import opened Constants
  import opened Seqs
  import opened Text

  /** `handleAddParticipant`: nothing for an empty name (a blank but non-empty name is
      accepted); otherwise one participant with the chosen role. */
  function NewParticipant(name: string, role: ClassRole, id: string): (p: Option<Participant>)
    ensures p.None? <==> name == ""
    ensures p.Some? ==> p.value.id == id && p.value.name == name && p.value.role == role
  {
    if name == "" then None else Some(Participant(id, name, role))
  }

  /** The character class `[\t,-]` a bulk line is split on. */
  const Delimiters: set<char> := {'\t', ',', '-'}

  /** The keywords tried in order, and the role each selects. */
  const RoleKeywords: seq<(string, ClassRole)> :=
    [("warrior", Warrior), ("berserker", Berserker), ("skald", Skald), ("archer", Archer), ("volva", Volva)]

  /** The `if / else if` chain choosing the role from the lowered, trimmed second segment:
      `unknown` exactly when no keyword occurs, and otherwise the role of one that does. */
  function DetectRole(roleStr: string): (role: ClassRole)
    ensures role == Unknown <==> forall k :: 0 <= k < |RoleKeywords| ==> !Contains(roleStr, RoleKeywords[k].0)
    ensures role != Unknown ==> exists k :: 0 <= k < |RoleKeywords| && RoleKeywords[k].1 == role && Contains(roleStr, RoleKeywords[k].0)
  {
    if Contains(roleStr, "warrior") then assert RoleKeywords[0] == ("warrior", Warrior); Warrior
    else if Contains(roleStr, "berserker") then assert RoleKeywords[1] == ("berserker", Berserker); Berserker
    else if Contains(roleStr, "skald") then assert RoleKeywords[2] == ("skald", Skald); Skald
    else if Contains(roleStr, "archer") then assert RoleKeywords[3] == ("archer", Archer); Archer
    else if Contains(roleStr, "volva") then assert RoleKeywords[4] == ("volva", Volva); Volva
    else Unknown
  }

  /** The role is that of the first keyword, in table order, occurring in the text;
      `unknown` exactly when none occurs. */
  lemma DetectRoleIsFirstKeyword(roleStr: string) returns (k: nat)
    ensures k <= |RoleKeywords|
    ensures k == |RoleKeywords| <==> DetectRole(roleStr) == Unknown
    ensures k < |RoleKeywords| ==>
      RoleKeywords[k].1 == DetectRole(roleStr) && Contains(roleStr, RoleKeywords[k].0)
    ensures forall j :: 0 <= j < k ==> !Contains(roleStr, RoleKeywords[j].0)
  {
    if Contains(roleStr, "warrior") {
      k := 0;
    } else if Contains(roleStr, "berserker") {
      k := 1;
    } else if Contains(roleStr, "skald") {
      k := 2;
    } else if Contains(roleStr, "archer") {
      k := 3;
    } else if Contains(roleStr, "volva") {
      k := 4;
    } else {
      k := 5;
    }
  }

  /** One bulk line: the name is the trimmed text before the first delimiter; the role is
      detected in the second segment when there is one, and is `unknown` otherwise. */
  function ParseParticipantLine(line: string, id: string): (p: Participant)
    ensures p.id == id
    ensures p.name == Trim(line[..IndexOfAny(line, Delimiters)])
    ensures (forall k :: 0 <= k < |line| ==> line[k] !in Delimiters) ==>
      p.name == Trim(line) && p.role == Unknown
  {
    var parts := SplitOnAny(line, Delimiters);
    var name := Trim(parts[0]);
    var role := if |parts| > 1 then DetectRole(Trim(ToLower(parts[1]))) else Unknown;
    Participant(id, name, role)
  }

  /** Splitting `a + [d] + b` where `a` has no delimiter and `d` is one. */
  lemma SplitOnAnyCons(a: string, d: char, b: string, delims: set<char>)
    requires forall k :: 0 <= k < |a| ==> a[k] !in delims
    requires d in delims
    ensures SplitOnAny(a + [d] + b, delims) == [a] + SplitOnAny(b, delims)
  {
    var s := a + [d] + b;
    assert IndexOfAny(s, delims) == |a| by {
      var i := IndexOfAny(s, delims);
      assert s[|a|] == d;
      assert forall k :: 0 <= k < |a| ==> s[k] == a[k];
    }
    assert s[..|a|] == a;
    assert s[|a| + 1..] == b;
  }

  /** A line `name d1 roleText d2 rest` parses to the trimmed name and the role detected in
      `roleText`; whatever follows the second delimiter is ignored. */
  lemma ParseStructuredLine(name: string, d1: char, roleText: string, d2: char, rest: string, id: string)
    requires forall k :: 0 <= k < |name| ==> name[k] !in Delimiters
    requires forall k :: 0 <= k < |roleText| ==> roleText[k] !in Delimiters
    requires d1 in Delimiters && d2 in Delimiters
    ensures ParseParticipantLine(name + [d1] + roleText, id)
         == Participant(id, Trim(name), DetectRole(Trim(ToLower(roleText))))
    ensures ParseParticipantLine(name + [d1] + roleText + [d2] + rest, id)
         == Participant(id, Trim(name), DetectRole(Trim(ToLower(roleText))))
  {
    SplitOnAnyCons(name, d1, roleText, Delimiters);
    assert SplitOnAny(roleText, Delimiters) == [roleText];
    var tail := roleText + [d2] + rest;
    assert name + [d1] + roleText + [d2] + rest == name + [d1] + tail;
    SplitOnAnyCons(name, d1, tail, Delimiters);
    SplitOnAnyCons(roleText, d2, rest, Delimiters);
  }

  /** `n.trim().length > 0`. */
  predicate NonBlank(line: string)
  {
    Trim(line) != ""
  }

  /** The lines of the text that hold something other than whitespace, in order: every
      kept line is non-blank, every non-blank line is kept, and as many are kept as the
      text has non-blank lines. */
  function NonBlankLines(text: string): (lines: seq<string>)
    ensures forall k :: 0 <= k < |lines| ==> NonBlank(lines[k])
    ensures forall k :: 0 <= k < |SplitOn(text, "\n")| && NonBlank(SplitOn(text, "\n")[k]) ==>
      SplitOn(text, "\n")[k] in lines
    ensures |lines| == CountWhere(SplitOn(text, "\n"), NonBlank)
    ensures IsSubsequence(lines, SplitOn(text, "\n"))
  {
    FilterCount(SplitOn(text, "\n"), NonBlank);
    Filter(SplitOn(text, "\n"), NonBlank)
  }

  /** `handleBulkAdd`: nothing for empty text; otherwise one participant per non-blank line,
      in line order, the k-th taking the k-th fresh id. */
  function BulkParticipants(text: string, ids: nat -> string): (r: Option<seq<Participant>>)
    ensures r.None? <==> text == ""
    ensures r.Some? ==> |r.value| == |NonBlankLines(text)|
    ensures r.Some? ==> forall k :: 0 <= k < |r.value| ==>
      r.value[k] == ParseParticipantLine(NonBlankLines(text)[k], ids(k))
  {
    if text == "" then None
    else
      var lines := NonBlankLines(text);
      Some(seq(|lines|, k requires 0 <= k < |lines| => ParseParticipantLine(lines[k], ids(k))))
  }

  /** Text made of whitespace-only lines adds nobody. */
  lemma BlankTextAddsNobody(text: string, ids: nat -> string)
    requires text != ""
    requires forall k :: 0 <= k < |text| ==> IsWhitespace(text[k])
    ensures BulkParticipants(text, ids) == Some([])
  {
    var lines := SplitOn(text, "\n");
    JoinSplitOn(text, "\n");
    forall l | l in lines ensures Trim(l) == "" {
      JoinedPartIsInfix(lines, "\n", l);
      TrimEmptyIff(l);
    }
    assert NonBlankLines(text) == [];
  }

  lemma TrimsToPlayerX(name: string)
    requires name == "PlayerX "
    ensures Trim(name) == "PlayerX"
  {
    var bare := name[..7];
    assert name == [] + bare + [' '];
    TrimPadding([], bare, [' ']);
  }

  lemma ArcherLowered(roleText: string)
    requires roleText == " Archer"
    ensures Trim(ToLower(roleText)) == "archer"
  {
    var lowered := ToLower(roleText);
    var word := lowered[1..];
    assert word == "archer" by {
      assert forall k :: 1 <= k < |lowered| ==> lowered[k] == ToLowerChar(roleText[k]);
    }
    assert lowered == [' '] + word;
    TrimPadding([' '], word, []);
  }

  lemma ArcherDetected(word: string)
    requires word == "archer"
    ensures DetectRole(word) == Archer
  {
    assert !Contains(word, "warrior");
    assert !Contains(word, "berserker");
    assert !Contains(word, "skald") by {
      assert word[0] == 'a' && word[1] == 'r';
      assert !OccursAt(word, "skald", 0);
      assert !OccursAt(word, "skald", 1);
    }
    assert OccursAt(word, "archer", 0);
  }

  lemma ArcherKeyword(roleText: string)
    requires roleText == " Archer"
    ensures DetectRole(Trim(ToLower(roleText))) == Archer
  {
    ArcherLowered(roleText);
    ArcherDetected(Trim(ToLower(roleText)));
  }

  /** A bulk line `PlayerX - Archer` gives role `archer`. */
  lemma ArcherLineExample(name: string, roleText: string, id: string)
    requires name == "PlayerX " && roleText == " Archer"
    ensures ParseParticipantLine(name + "-" + roleText, id) == Participant(id, "PlayerX", Archer)
  {
    assert forall k :: 0 <= k < |name| ==> name[k] !in Delimiters;
    assert forall k :: 0 <= k < |roleText| ==> roleText[k] !in Delimiters;
    ParseStructuredLine(name, '-', roleText, '-', "", id);
    TrimsToPlayerX(name);
    ArcherKeyword(roleText);
  }

  /** A bulk line `PlayerY` without delimiter gives role `unknown`. */
  lemma BareLineExample(line: string, id: string)
    requires line == "PlayerY"
    ensures ParseParticipantLine(line, id) == Participant(id, "PlayerY", Unknown)
  {
    assert forall k :: 0 <= k < |line| ==> line[k] !in Delimiters;
    TrimUntouched(line);
  }
}
