/**
 * Normalisation of release/tag names (sbomdebt/debt.py:40): lower-case the
 * name, delete every `version-`, then delete every `v`. Lower-casing is
 * modelled on the ASCII letters; `replace(p, "")` deletes the occurrences
 * of `p` found by a left-to-right scan, without overlaps.
 */
module TagNames {

  /** No ASCII upper-case letter occurs in `s`. */
  predicate NoUpper(s: string) {
    forall c :: c in s ==> !('A' <= c <= 'Z')
  }

  /** `pat` occurs in `s` starting at position `i`. */
  predicate OccursAt(pat: string, s: string, i: int) {
    0 <= i && i + |pat| <= |s| && s[i..i + |pat|] == pat
  }

  /** `pat` occurs as a contiguous piece of `s`. */
  predicate Occurs(pat: string, s: string) {
    exists i :: 0 <= i <= |s| && OccursAt(pat, s, i)
  }

  /** Python's `str.lower()` on one ASCII character. */
  function Lower(c: char): (r: char)
    ensures !('A' <= r <= 'Z')
    ensures !('A' <= c <= 'Z') ==> r == c
    ensures 'A' <= c <= 'Z' ==> r as int == c as int - 'A' as int + 'a' as int
  {
    if 'A' <= c <= 'Z' then (c as int - 'A' as int + 'a' as int) as char else c
  }

  /** Python's `str.lower()`. */
  function LowerAll(s: string): (r: string)
    ensures |r| == |s|
  {
    if s == [] then [] else [Lower(s[0])] + LowerAll(s[1..])
  }

  /** Lower-casing works character by character. */
  lemma {:induction false} LowerAllAt(s: string, i: nat)
    requires i < |s|
    ensures LowerAll(s)[i] == Lower(s[i])
  {
    if i > 0 {
      LowerAllAt(s[1..], i - 1);
    }
  }

  /** Python's `s.replace(pat, "")` for a non-empty `pat`. */
  function DeleteAll(s: string, pat: string): (r: string)
    requires pat != []
    ensures |r| <= |s|
    decreases |s|
  {
    if s == [] then []
    else if pat <= s then DeleteAll(s[|pat|..], pat)
    else [s[0]] + DeleteAll(s[1..], pat)
  }

  /** The normalised name of a release/tag. */
  function Normalise(name: string): string {
    DeleteAll(DeleteAll(LowerAll(name), "version-"), "v")
  }

  /**
   * A normalised name has no upper-case letter and no `v`, hence no
   * `version-` either.
   */
  lemma NormaliseShape(name: string)
    ensures NoUpper(Normalise(name))
    ensures 'v' !in Normalise(name)
    ensures !Occurs("version-", Normalise(name))
  {
    var lowered := LowerAll(name);
    var stripped := DeleteAll(lowered, "version-");
    LowerAllNoUpper(name);
    DeleteAllKeepsOnlyOwnChars(lowered, "version-");
    DeleteAllKeepsOnlyOwnChars(stripped, "v");
    DeleteCharRemovesIt(stripped, 'v');
    NoLetterNoOccurrence(Normalise(name), "version-");
  }

  lemma LowerAllNoUpper(s: string)
    ensures NoUpper(LowerAll(s))
  {
    var r := LowerAll(s);
    forall c | c in r ensures !('A' <= c <= 'Z') {
      var i :| 0 <= i < |r| && r[i] == c;
      LowerAllAt(s, i);
    }
  }

  /** Deleting never introduces a character. */
  lemma {:induction false} DeleteAllKeepsOnlyOwnChars(s: string, pat: string)
    requires pat != []
    ensures forall c :: c in DeleteAll(s, pat) ==> c in s
    decreases |s|
  {
    if s == [] {
    } else if pat <= s {
      DeleteAllKeepsOnlyOwnChars(s[|pat|..], pat);
      forall c | c in s[|pat|..] ensures c in s {
        var i :| |pat| <= i < |s| && s[i] == c;
      }
    } else {
      DeleteAllKeepsOnlyOwnChars(s[1..], pat);
      forall c | c in s[1..] ensures c in s {
        var i :| 1 <= i < |s| && s[i] == c;
      }
    }
  }

  /** `replace(c, "")` leaves no `c` behind. */
  lemma {:induction false} DeleteCharRemovesIt(s: string, c: char)
    ensures c !in DeleteAll(s, [c])
    decreases |s|
  {
    if s == [] {
    } else if [c] <= s {
      DeleteCharRemovesIt(s[1..], c);
    } else {
      DeleteCharRemovesIt(s[1..], c);
    }
  }

  /** A string lacking the first letter of `pat` does not contain `pat`. */
  lemma NoLetterNoOccurrence(s: string, pat: string)
    requires pat != [] && pat[0] !in s
    ensures !Occurs(pat, s)
  {
    forall i | 0 <= i && i + |pat| <= |s| ensures !OccursAt(pat, s, i) {
      assert s[i] in s;
      assert s[i..i + |pat|][0] == s[i];
    }
  }

  /** Deleting a pattern whose first letter is absent changes nothing. */
  lemma {:induction false} DeleteAllAbsent(s: string, pat: string)
    requires pat != [] && pat[0] !in s
    ensures DeleteAll(s, pat) == s
    decreases |s|
  {
    if s != [] {
      assert s[0] != pat[0];
      assert !(pat <= s);
      assert pat[0] !in s[1..] by {
        forall i | 1 <= i < |s| ensures s[i] != pat[0] {
          assert s[i] in s;
        }
      }
      DeleteAllAbsent(s[1..], pat);
      assert s == [s[0]] + s[1..];
    }
  }

  /** Lower-casing a string with no upper-case letter changes nothing. */
  lemma {:induction false} LowerAllFixed(s: string)
    requires NoUpper(s)
    ensures LowerAll(s) == s
  {
    forall i | 0 <= i < |s| ensures LowerAll(s)[i] == s[i] {
      assert s[i] in s;
      LowerAllAt(s, i);
    }
  }

  /** Normalising an already normalised name returns it unchanged. */
  lemma NormaliseIdempotent(name: string)
    ensures Normalise(Normalise(name)) == Normalise(name)
  {
    var t := Normalise(name);
    NormaliseShape(name);
    LowerAllFixed(t);
    DeleteAllAbsent(t, "version-");
    DeleteAllAbsent(t, "v");
  }

  /** A name that is already lower-case and has no `v` is its own normal form. */
  lemma NormaliseFixed(name: string)
    requires NoUpper(name) && 'v' !in name
    ensures Normalise(name) == name
  {
    LowerAllFixed(name);
    DeleteAllAbsent(name, "version-");
    DeleteAllAbsent(name, "v");
  }

  /** Only a name with no `v` and no upper-case letter can be a normal form. */
  lemma NormalFormsAreLowerWithoutV(name: string, version: string)
    requires Normalise(name) == version
    ensures NoUpper(version) && 'v' !in version
  {
    NormaliseShape(name);
  }

  /** The prefix `version-` in front of a normal form is deleted. */
  lemma NormaliseVersionPrefix(rest: string)
    requires NoUpper(rest) && 'v' !in rest
    ensures Normalise("version-" + rest) == rest
  {
    var name := "version-" + rest;
    assert NoUpper(name) by {
      forall c | c in name ensures !('A' <= c <= 'Z') {
        var i :| 0 <= i < |name| && name[i] == c;
        if i >= 8 {
          assert name[i] == rest[i - 8];
          assert rest[i - 8] in rest;
        }
      }
    }
    LowerAllFixed(name);
    assert "version-" <= name;
    assert name[8..] == rest;
    DeleteAllAbsent(rest, "version-");
    DeleteAllAbsent(rest, "v");
  }

  /** A lower-case `v` in front of a normal form is deleted. */
  lemma NormaliseLowerV(rest: string)
    requires NoUpper(rest) && 'v' !in rest && !("ersion-" <= rest)
    ensures Normalise("v" + rest) == rest
  {
    var name := "v" + rest;
    assert NoUpper(name) by {
      forall c | c in name ensures !('A' <= c <= 'Z') {
        var i :| 0 <= i < |name| && name[i] == c;
        if i >= 1 {
          assert name[i] == rest[i - 1];
          assert rest[i - 1] in rest;
        }
      }
    }
    LowerAllFixed(name);
    assert !("version-" <= name);
    assert DeleteAll(name, "version-") == [name[0]] + DeleteAll(rest, "version-");
    DeleteAllAbsent(rest, "version-");
    assert name[1..] == rest;
    DeleteAllAbsent(rest, "v");
  }

  /** An upper-case `V` in front of a normal form is lowered, then deleted. */
  lemma NormaliseUpperV(rest: string)
    requires NoUpper(rest) && 'v' !in rest && !("ersion-" <= rest)
    ensures Normalise("V" + rest) == rest
  {
    var name := "V" + rest;
    LowerAllFixed(rest);
    assert LowerAll(name) == "v" + rest by {
      assert name[1..] == rest;
    }
    NormaliseLowerV(rest);
  }

  lemma PlainIsNormal()
    ensures NoUpper("1.2.0") && 'v' !in "1.2.0" && !("ersion-" <= "1.2.0")
  {
    var plain := "1.2.0";
    forall c | c in plain ensures !('A' <= c <= 'Z') && c != 'v' {
      var i :| 0 <= i < |plain| && plain[i] == c;
    }
  }

  /** The three spellings of one release all normalise to "1.2.0". */
  lemma NormaliseExamples()
    ensures Normalise("V1.2.0") == "1.2.0"
    ensures Normalise("version-1.2.0") == "1.2.0"
    ensures Normalise("v1.2.0") == "1.2.0"
  {
    PlainIsNormal();
    NormaliseUpperV("1.2.0");
    assert "V" + "1.2.0" == "V1.2.0";
    NormaliseVersionPrefix("1.2.0");
    assert "version-" + "1.2.0" == "version-1.2.0";
    NormaliseLowerV("1.2.0");
    assert "v" + "1.2.0" == "v1.2.0";
  }
}
