/** The pure steps of the question scraper: classifying a LeetCode
    difficulty label, and merging newly scraped questions into the question
    database without repeating a title already stored. */
module Spider {
  import opened Seqs

  // ---------------------------------------------------------------------
  // Difficulty labels

  function LowerChar(c: char): (l: char)
    ensures 'A' <= c <= 'Z' ==> 'a' <= l <= 'z'
    ensures !('A' <= c <= 'Z') ==> l == c
  {
    if 'A' <= c <= 'Z' then (c as int - 'A' as int + 'a' as int) as char else c
  }

  /** `str.lower()` on ASCII letters; other characters are kept. */
  function Lower(s: string): (r: string)
    ensures |r| == |s|
    ensures forall i :: 0 <= i < |s| ==> r[i] == LowerChar(s[i])
    ensures forall i :: 0 <= i < |r| ==> !('A' <= r[i] <= 'Z')
  {
    seq(|s|, i requires 0 <= i < |s| => LowerChar(s[i]))
  }

  /** Lowering twice is lowering once. */
  lemma LowerIdempotent(s: string)
    ensures Lower(Lower(s)) == Lower(s)
  {
  }

  /** `sub in s` for strings: `sub` is a prefix of some suffix of `s`. */
  predicate Contains(s: string, sub: string)
    decreases |s|
  {
    sub <= s || (s != [] && Contains(s[1..], sub))
  }

  /** `Contains` agrees with an occurrence at some offset. */
  lemma {:induction false} ContainsAt(s: string, sub: string)
    ensures Contains(s, sub) <==> exists i :: 0 <= i <= |s| - |sub| && sub <= s[i..]
    decreases |s|
  {
    assert s[0..] == s;
    if s == [] {
      assert sub == [] ==> sub <= s[0..];
    } else {
      ContainsAt(s[1..], sub);
      if sub <= s {
        assert sub <= s[0..];
      }
      if Contains(s[1..], sub) {
        var i :| 0 <= i <= |s[1..]| - |sub| && sub <= s[1..][i..];
        assert s[1..][i..] == s[i + 1..];
        assert sub <= s[i + 1..];
      }
      if exists i :: 0 <= i <= |s| - |sub| && sub <= s[i..] {
        var i :| 0 <= i <= |s| - |sub| && sub <= s[i..];
        if i > 0 {
          assert s[1..][i - 1..] == s[i..];
          assert sub <= s[1..][i - 1..];
        } else {
          assert sub <= s;
        }
      }
    }
  }

  /** The Chinese labels for "easy" and "medium". */
  const Simple: string := "\U{7B80}\U{5355}"
  const Moderate: string := "\U{4E2D}\U{7B49}"

  predicate EasyMarked(d: string) {
    Contains(Lower(d), Simple) || Contains(Lower(d), "easy")
  }

  predicate MediumMarked(d: string) {
    Contains(Lower(d), Moderate) || Contains(Lower(d), "medium")
  }

  /** `_convert_leetcode_difficulty`: an easy marker wins, then a medium
      marker; anything else, the empty label included, is hard. */
  function ConvertLeetcodeDifficulty(d: string): (r: string)
    ensures r == "easy" || r == "medium" || r == "hard"
    ensures r == "easy" <==> EasyMarked(d)
    ensures r == "medium" <==> !EasyMarked(d) && MediumMarked(d)
    ensures r == "hard" <==> !EasyMarked(d) && !MediumMarked(d)
  {
    var l := Lower(d);
    if Contains(l, Simple) || Contains(l, "easy") then "easy"
    else if Contains(l, Moderate) || Contains(l, "medium") then "medium"
    else "hard"
  }

  /** The classification ignores letter case. */
  lemma ConvertIgnoresCase(d: string)
    ensures ConvertLeetcodeDifficulty(Lower(d)) == ConvertLeetcodeDifficulty(d)
  {
    LowerIdempotent(d);
  }

  /** Classifying an already classified label gives it back. */
  lemma ConvertIdempotent(d: string)
    ensures ConvertLeetcodeDifficulty(ConvertLeetcodeDifficulty(d)) == ConvertLeetcodeDifficulty(d)
  {
    var r := ConvertLeetcodeDifficulty(d);
    if r == "easy" {
      EasyLabel();
    } else if r == "medium" {
      MediumLabel();
    } else {
      HardLabel();
    }
  }

  /** The label "easy" is easy. */
  lemma EasyLabel()
    ensures ConvertLeetcodeDifficulty("easy") == "easy"
  {
    assert Lower("easy") == "easy";
    assert Contains("easy", "easy");
  }

  /** The label "medium" carries no easy marker and is medium. */
  lemma MediumLabel()
    ensures ConvertLeetcodeDifficulty("medium") == "medium"
  {
    assert Lower("medium") == "medium";
    MissingChar("medium", "easy", 1);
    MissingChar("medium", Simple, 0);
    assert Contains("medium", "medium");
  }

  /** The label "hard" carries no marker and is hard. */
  lemma HardLabel()
    ensures ConvertLeetcodeDifficulty("hard") == "hard"
  {
    assert Lower("hard") == "hard";
    MissingChar("hard", "easy", 0);
    MissingChar("hard", Simple, 0);
    MissingChar("hard", "medium", 0);
    MissingChar("hard", Moderate, 0);
  }

  /** Upper case is lowered first: `EASY` is easy. */
  lemma ConvertUpperCaseExample()
    ensures ConvertLeetcodeDifficulty("EASY") == "easy"
  {
    assert Lower("EASY") == "easy";
    assert Contains("easy", "easy");
  }

  /** A string lacking one of the characters of `sub` does not contain it. */
  lemma {:induction false} MissingChar(s: string, sub: string, k: nat)
    requires k < |sub|
    requires forall i :: 0 <= i < |s| ==> s[i] != sub[k]
    ensures !Contains(s, sub)
    decreases |s|
  {
    if |sub| <= |s| {
      assert s[k] != sub[k];
    }
    if s != [] {
      MissingChar(s[1..], sub, k);
    }
  }

  /** `Medium` is medium. */
  lemma ConvertMediumExample()
    ensures ConvertLeetcodeDifficulty("Medium") == "medium"
  {
    assert Lower("Medium") == "medium";
    MissingChar("medium", "easy", 1);
    MissingChar("medium", Simple, 0);
    assert Contains("medium", "medium");
  }

  /** An easy marker wins over a medium one. */
  lemma ConvertBothMarkersExample()
    ensures ConvertLeetcodeDifficulty("easy or medium") == "easy"
  {
    assert Lower("easy or medium") == "easy or medium";
    assert Contains("easy or medium", "easy");
  }

  /** The empty label is hard. */
  lemma ConvertEmptyExample()
    ensures ConvertLeetcodeDifficulty("") == "hard"
  {
    assert Lower("") == "";
    assert !Contains("", Simple) && !Contains("", "easy");
    assert !Contains("", Moderate) && !Contains("", "medium");
  }

  // ---------------------------------------------------------------------
  // Merging scraped questions

  /** A scraped question; only the title takes part in deduplication. */
  datatype Question = Question(title: string, content: string, difficulty: string, source: string)

  function Titles(db: seq<Question>): set<string> {
    set q | q in db :: q.title
  }

  /** The new questions whose title is not in `titles`, in their order;
      two new questions sharing a fresh title are both kept. */
  function Fresh(titles: set<string>, batch: seq<Question>): (r: seq<Question>)
    ensures SubSeq(r, batch)
    ensures forall i :: 0 <= i < |r| ==> r[i].title !in titles
    ensures forall i :: 0 <= i < |batch| && batch[i].title !in titles ==> batch[i] in r
    ensures |r| == |batch| - StaleCount(titles, batch)
  {
    if batch == [] then []
    else
      var rest := Fresh(titles, batch[1..]);
      assert forall i :: 1 <= i < |batch| ==> batch[i] == batch[1..][i - 1];
      if batch[0].title !in titles then
        var r := [batch[0]] + rest;
        assert r[1..] == rest;
        r
      else rest
  }

  /** The number of questions of a batch whose title is already stored. */
  function StaleCount(titles: set<string>, batch: seq<Question>): nat {
    if batch == [] then 0
    else (if batch[0].title in titles then 1 else 0) + StaleCount(titles, batch[1..])
  }

  /** The database after a merge, and the number of questions added. */
  datatype Merge = Merge(db: seq<Question>, added: nat)

  /** The merge step of `update_question_database`: the LeetCode batch then
      the NowCoder batch, keeping only titles not already stored, appended
      after the existing questions. */
  function UpdateQuestionDatabase(db: seq<Question>, leetcode: seq<Question>, nowcoder: seq<Question>)
    : (m: Merge)
    ensures |m.db| == |db| + m.added && m.db[..|db|] == db
    ensures m.added == |leetcode + nowcoder| - StaleCount(Titles(db), leetcode + nowcoder)
    ensures SubSeq(m.db[|db|..], leetcode + nowcoder)
    ensures forall i :: |db| <= i < |m.db| ==> m.db[i].title !in Titles(db)
    ensures forall q :: q in leetcode + nowcoder && q.title !in Titles(db) ==> q in m.db[|db|..]
    ensures forall q :: q in leetcode + nowcoder ==> q.title in Titles(m.db)
  {
    var added := Fresh(Titles(db), leetcode + nowcoder);
    var r := db + added;
    assert r[..|db|] == db && r[|db|..] == added;
    assert forall q :: q in leetcode + nowcoder ==> q.title in Titles(r) by {
      forall q | q in leetcode + nowcoder
        ensures q.title in Titles(r)
      {
        if q.title !in Titles(db) {
          assert q in r;
        } else {
          var p :| p in db && p.title == q.title;
          assert p in r;
        }
      }
    }
    Merge(r, |added|)
  }

  /** Merging the same batches again adds nothing. */
  lemma UpdateTwiceAddsNothing(db: seq<Question>, leetcode: seq<Question>, nowcoder: seq<Question>)
    ensures var once := UpdateQuestionDatabase(db, leetcode, nowcoder);
            UpdateQuestionDatabase(once.db, leetcode, nowcoder).added == 0
  {
    var once := UpdateQuestionDatabase(db, leetcode, nowcoder);
    var twice := UpdateQuestionDatabase(once.db, leetcode, nowcoder);
    if twice.added > 0 {
      var q := twice.db[|once.db|];
      assert q.title !in Titles(once.db);
      SubSeqMembers(twice.db[|once.db|..], leetcode + nowcoder);
    }
  }

  /** A stored title blocks a new question; two new questions sharing a
      fresh title are both kept. */
  lemma MergeExample(a: Question, b: Question, c: Question)
    requires a.title == "Two Sum" && b.title == "Two Sum" && c.title == "Add Two Numbers"
    ensures UpdateQuestionDatabase([a], [b, c], [c]) == Merge([a, c, c], 2)
  {
    assert Titles([a]) == {"Two Sum"};
    var batch := [b, c] + [c];
    assert batch == [b, c, c];
    assert "Add Two Numbers" != "Two Sum";
    assert batch[1..][1..][1..] == [];
    assert Fresh({"Two Sum"}, batch) == [c, c];
  }
}
