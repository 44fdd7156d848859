/**
 * The character catalogue queries: keyword search, skills of a character,
 * categories, by-category, popular and recommended lists. A table is the
 * sequence of its rows in storage order.
 */
module Characters {
  import opened Common
  import opened Text
  import opened Sorting

  /** A `characters` row; nullable columns are `Option`s, `createTime` is a timestamp. */
  datatype Character = Character(
    id: int,
    name: Option<string>,
    description: Option<string>,
    systemPrompt: Option<string>,
    category: Option<string>,
    status: Option<int>,
    createTime: int)

  /** A `character_skills` row. */
  datatype Skill = Skill(
    id: int,
    characterId: Option<int>,
    skillName: Option<string>,
    skillPrompt: Option<string>,
    sortOrder: Option<int>)

  /** A statement the database refuses (`LIMIT null`, a negative `LIMIT`). */
  datatype SqlError = SqlSyntaxError

  /** Enabled (`status = 1`); a null status matches nothing. */
  predicate Listed(c: Character) {
    c.status == Some(1)
  }

  /**
   * SQL `text LIKE pattern`, character by character: `%` matches any run of
   * characters, `_` exactly one, and every other character itself.
   */
  predicate LikeMatch(text: string, pattern: string)
    decreases |text| + |pattern|
  {
    if pattern == [] then text == []
    else if pattern[0] == '%' then LikeMatch(text, pattern[1..]) || (text != [] && LikeMatch(text[1..], pattern))
    else text != [] && (pattern[0] == '_' || pattern[0] == text[0]) && LikeMatch(text[1..], pattern[1..])
  }

  /**
   * `like(column, keyword)` binds `'%' + keyword + '%'` without escaping the
   * keyword's own `%` and `_`; a null column never matches.
   */
  predicate Like(column: Option<string>, keyword: string) {
    column.Some? && LikeMatch(column.value, "%" + keyword + "%")
  }

  predicate MatchesKeyword(c: Character, keyword: string) {
    Like(c.name, keyword) || Like(c.description, keyword) || Like(c.category, keyword)
  }

  /** `keyword != null && !keyword.isEmpty()`: only then is the keyword filter added. */
  predicate HasKeyword(keyword: Option<string>) {
    keyword.Some? && keyword.value != []
  }

  function NewestKey(c: Character): int {
    -c.createTime
  }

  predicate NewestFirst(rows: seq<Character>) {
    forall i, j | 0 <= i < j < |rows| :: rows[i].createTime >= rows[j].createTime
  }

  /** `WHERE keep ORDER BY create_time DESC`; rows with equal times keep their storage order. */
  function SelectNewestFirst(table: seq<Character>, keep: Character -> bool): (r: seq<Character>)
    ensures NewestFirst(r)
    ensures forall i | 0 <= i < |r| :: keep(r[i])
    ensures forall i | 0 <= i < |table| && keep(table[i]) :: table[i] in r
    ensures multiset(r) <= multiset(table)
  {
    var r := Select(table, keep, NewestKey);
    SortedNewestFirst(r);
    r
  }

  /** Ascending by `NewestKey` is descending by creation time. */
  lemma SortedNewestFirst(r: seq<Character>)
    requires SortedBy(r, NewestKey)
    ensures NewestFirst(r)
  {
    forall i, j | 0 <= i < j < |r| ensures r[i].createTime >= r[j].createTime {
      assert NewestKey(r[i]) <= NewestKey(r[j]);
    }
  }

  predicate SearchHit(c: Character, keyword: Option<string>) {
    Listed(c) && (HasKeyword(keyword) ==> MatchesKeyword(c, keyword.value))
  }

  /** `searchCharacters`: enabled characters whose name, description or category contains the keyword, newest first. */
  function SearchCharacters(table: seq<Character>, keyword: Option<string>): (r: seq<Character>)
    ensures NewestFirst(r)
    ensures forall i | 0 <= i < |r| :: Listed(r[i])
    ensures HasKeyword(keyword) ==> forall i | 0 <= i < |r| :: MatchesKeyword(r[i], keyword.value)
    ensures forall i | 0 <= i < |table| && SearchHit(table[i], keyword) :: table[i] in r
    ensures multiset(r) <= multiset(table)
  {
    SelectNewestFirst(table, c => SearchHit(c, keyword))
  }

  /** A null or empty keyword lists every enabled character. */
  lemma SearchWithoutKeyword(table: seq<Character>)
    ensures SearchCharacters(table, Some("")) == SearchCharacters(table, None)
    ensures forall i | 0 <= i < |table| && Listed(table[i]) :: table[i] in SearchCharacters(table, None)
  {
    FilterCongruent(table, c => SearchHit(c, Some("")), c => SearchHit(c, None));
  }

  /** A keyword without `%` or `_`, which LIKE compares literally. */
  predicate NoWildcards(k: string) {
    forall i | 0 <= i < |k| :: k[i] != '%' && k[i] != '_'
  }

  /** With a keyword free of wildcards, a character matches exactly when a column contains the keyword. */
  lemma LiteralKeywordIsSubstring(c: Character, keyword: string)
    requires NoWildcards(keyword)
    ensures MatchesKeyword(c, keyword)
        <==> || (c.name.Some? && Contains(c.name.value, keyword))
             || (c.description.Some? && Contains(c.description.value, keyword))
             || (c.category.Some? && Contains(c.category.value, keyword))
  {
    if c.name.Some? { LikeContains(c.name.value, keyword); }
    if c.description.Some? { LikeContains(c.description.value, keyword); }
    if c.category.Some? { LikeContains(c.category.value, keyword); }
  }

  /** The keyword `%` matches every non-null column, `_` every non-empty one. */
  lemma WildcardKeywords(text: string)
    ensures Like(Some(text), "%")
    ensures Like(Some(text), "_") <==> text != []
  {
    assert "%" + "%" + "%" == "%%%";
    MatchAnyTail(text);
    assert LikeMatch(text, "%%");
    assert "%" + "_" + "%" == "%_%";
    LeadingPercent(text, "_%");
    if text != [] {
      MatchAnyTail(text[1..]);
      assert LikeMatch(text[0..], "_%");
    } else {
      assert !LikeMatch(text, "_%");
    }
  }

  /** `%keyword%` with a literal keyword is the substring test. */
  lemma LikeContains(text: string, keyword: string)
    requires NoWildcards(keyword)
    ensures LikeMatch(text, "%" + keyword + "%") <==> Contains(text, keyword)
  {
    assert "%" + keyword + "%" == "%" + (keyword + "%");
    LeadingPercent(text, keyword + "%");
    forall i | 0 <= i <= |text|
      ensures LikeMatch(text[i..], keyword + "%") <==> OccursAt(text, keyword, i)
    {
      PrefixLiteral(text[i..], keyword);
      if |keyword| <= |text| - i {
        assert text[i..][..|keyword|] == text[i..i + |keyword|];
      }
    }
    if Contains(text, keyword) {
      var i :| 0 <= i <= |text| - |keyword| && OccursAt(text, keyword, i);
      assert LikeMatch(text[i..], keyword + "%");
    }
    if LikeMatch(text, "%" + keyword + "%") {
      var i :| 0 <= i <= |text| && LikeMatch(text[i..], keyword + "%");
      assert OccursAt(text, keyword, i);
    }
  }

  /** A trailing `%` matches anything. */
  lemma {:induction false} MatchAnyTail(text: string)
    ensures LikeMatch(text, "%")
  {
    if text != [] {
      MatchAnyTail(text[1..]);
    }
  }

  /** A literal followed by `%` matches exactly the texts that start with the literal. */
  lemma {:induction false} PrefixLiteral(text: string, k: string)
    requires NoWildcards(k)
    ensures LikeMatch(text, k + "%") <==> StartsWith(text, k)
    decreases |k|
  {
    if k == [] {
      assert k + "%" == "%";
      MatchAnyTail(text);
    } else {
      assert (k + "%")[0] == k[0] && (k + "%")[1..] == k[1..] + "%";
      assert k[0] != '%' && k[0] != '_';
      if text != [] {
        PrefixLiteral(text[1..], k[1..]);
        assert StartsWith(text, k) <==> text[0] == k[0] && StartsWith(text[1..], k[1..]) by {
          if |k| <= |text| {
            assert text[..|k|] == [text[0]] + text[1..][..|k| - 1];
            assert k == [k[0]] + k[1..];
          }
        }
      }
    }
  }

  /** A leading `%` lets the rest of the pattern match any suffix of the text. */
  lemma {:induction false} LeadingPercent(text: string, p: string)
    ensures LikeMatch(text, "%" + p) <==> exists i | 0 <= i <= |text| :: LikeMatch(text[i..], p)
  {
    var pattern := "%" + p;
    assert pattern[0] == '%' && pattern[1..] == p;
    if text == [] {
      assert text[0..] == text;
    } else {
      LeadingPercent(text[1..], p);
      if LikeMatch(text, pattern) {
        if LikeMatch(text, p) {
          assert LikeMatch(text[0..], p);
        } else {
          var j :| 0 <= j <= |text| - 1 && LikeMatch(text[1..][j..], p);
          assert text[1..][j..] == text[j + 1..];
        }
      }
      if exists i | 0 <= i <= |text| :: LikeMatch(text[i..], p) {
        var i :| 0 <= i <= |text| && LikeMatch(text[i..], p);
        if i == 0 {
          assert text[0..] == text;
        } else {
          assert text[1..][i - 1..] == text[i..];
        }
      }
    }
  }

  // ----------------------------------------------------------------- skills

  /** `ORDER BY sort_order ASC` puts a null sort order before every Integer. */
  function SortOrderKey(s: Skill): int {
    if s.sortOrder.Some? then s.sortOrder.value else IntMin - 1
  }

  predicate SkillOf(s: Skill, characterId: Option<int>) {
    characterId.Some? && s.characterId == characterId
  }

  /** `getCharacterSkills`: the character's skills by ascending sort order; a null id matches nothing. */
  function GetCharacterSkills(skills: seq<Skill>, characterId: Option<int>): (r: seq<Skill>)
    ensures SortedBy(r, SortOrderKey)
    ensures forall i | 0 <= i < |r| :: SkillOf(r[i], characterId)
    ensures forall i | 0 <= i < |skills| && SkillOf(skills[i], characterId) :: skills[i] in r
    ensures characterId.None? ==> r == []
    ensures multiset(r) <= multiset(skills)
  {
    Select(skills, s => SkillOf(s, characterId), SortOrderKey)
  }

  /** `selectById` on the skill table; a null id finds nothing. */
  function GetSkillById(skills: seq<Skill>, skillId: Option<int>): (r: Option<Skill>)
    ensures r.Some? ==> r.value in skills && skillId == Some(r.value.id)
    ensures r.None? ==> forall i | 0 <= i < |skills| :: skillId != Some(skills[i].id)
  {
    if skills == [] then None
    else if skillId == Some(skills[0].id) then Some(skills[0])
    else GetSkillById(skills[1..], skillId)
  }

  /** `getById` on the character table: any status, a null id finds nothing. */
  function GetCharacterById(table: seq<Character>, id: Option<int>): (r: Option<Character>)
    ensures r.Some? ==> r.value in table && id == Some(r.value.id)
    ensures r.None? ==> forall i | 0 <= i < |table| :: id != Some(table[i].id)
  {
    if table == [] then None
    else if id == Some(table[0].id) then Some(table[0])
    else GetCharacterById(table[1..], id)
  }

  // ------------------------------------------------------------- categories

  /** Lexicographic order on code-unit sequences, a proper prefix first. */
  predicate UnitsLess(a: seq<int>, b: seq<int>) {
    if a == [] then b != []
    else if b == [] then false
    else if a[0] != b[0] then a[0] < b[0]
    else UnitsLess(a[1..], b[1..])
  }

  /**
   * `String.compareTo(a, b) < 0`: lexicographic by UTF-16 code unit, so a
   * char beyond U+FFFF sorts by its high surrogate.
   */
  predicate Less(a: string, b: string) {
    UnitsLess(Utf16Units(a), Utf16Units(b))
  }

  lemma {:induction false} UnitsLessIrreflexive(a: seq<int>)
    ensures !UnitsLess(a, a)
  {
    if a != [] {
      UnitsLessIrreflexive(a[1..]);
    }
  }

  lemma {:induction false} UnitsLessTransitive(a: seq<int>, b: seq<int>, c: seq<int>)
    requires UnitsLess(a, b) && UnitsLess(b, c)
    ensures UnitsLess(a, c)
  {
    if a != [] && a[0] == b[0] && b[0] == c[0] {
      UnitsLessTransitive(a[1..], b[1..], c[1..]);
    }
  }

  lemma {:induction false} UnitsLessTotal(a: seq<int>, b: seq<int>)
    requires a != b
    ensures UnitsLess(a, b) || UnitsLess(b, a)
  {
    if a != [] && b != [] && a[0] == b[0] {
      assert a == [a[0]] + a[1..] && b == [b[0]] + b[1..];
      UnitsLessTotal(a[1..], b[1..]);
    }
  }

  lemma LessIrreflexive(a: string)
    ensures !Less(a, a)
  {
    UnitsLessIrreflexive(Utf16Units(a));
  }

  lemma LessTransitive(a: string, b: string, c: string)
    requires Less(a, b) && Less(b, c)
    ensures Less(a, c)
  {
    UnitsLessTransitive(Utf16Units(a), Utf16Units(b), Utf16Units(c));
  }

  lemma LessTotal(a: string, b: string)
    requires a != b
    ensures Less(a, b) || Less(b, a)
  {
    if Utf16Units(a) == Utf16Units(b) {
      Utf16Injective(a, b);
    }
    UnitsLessTotal(Utf16Units(a), Utf16Units(b));
  }

  /** A category starting with an emoji sorts before one starting with a full-width parenthesis (U+D83D < U+FF08). */
  lemma SurrogatesSortLow()
    ensures Less("\U{1F600}趣味", "（古典）")
    ensures !Less("（古典）", "\U{1F600}趣味")
  {
    var u := Utf16Units("\U{1F600}趣味");
    var v := Utf16Units("（古典）");
    assert "\U{1F600}趣味"[0] == '\U{1F600}' && "（古典）"[0] == '（';
    assert u[0] == 0xD83D && v[0] == 0xFF08;
  }

  predicate StrictlySorted(s: seq<string>) {
    forall i, j | 0 <= i < j < |s| :: Less(s[i], s[j])
  }

  /** Adds `x` to a strictly sorted list unless it is already there. */
  function InsertDistinct(x: string, s: seq<string>): (r: seq<string>)
    requires StrictlySorted(s)
    ensures StrictlySorted(r)
    ensures forall y :: y in r <==> y == x || y in s
  {
    if s == [] then [x]
    else if x == s[0] then s
    else if Less(x, s[0]) then
      forall j | 0 <= j < |s| ensures Less(x, s[j]) {
        if j > 0 { LessTransitive(x, s[0], s[j]); }
      }
      ConsSorted(x, s);
      [x] + s
    else
      LessTotal(x, s[0]);
      var rest := InsertDistinct(x, s[1..]);
      assert s == [s[0]] + s[1..];
      forall j | 0 <= j < |rest| ensures Less(s[0], rest[j]) {
        assert rest[j] in rest;
      }
      ConsSorted(s[0], rest);
      [s[0]] + rest
  }

  /** A head below every element of a strictly sorted list keeps it strictly sorted. */
  lemma ConsSorted(h: string, s: seq<string>)
    requires StrictlySorted(s) && forall j | 0 <= j < |s| :: Less(h, s[j])
    ensures StrictlySorted([h] + s)
  {
    var r := [h] + s;
    forall i, j | 0 <= i < j < |r| ensures Less(r[i], r[j]) {
      assert r[j] == s[j - 1];
      if i > 0 { assert r[i] == s[i - 1]; }
    }
  }

  /** `.distinct().sorted()` on a list of strings. */
  function SortDistinct(xs: seq<string>): (r: seq<string>)
    ensures StrictlySorted(r)
    ensures forall y :: y in r <==> y in xs
  {
    if xs == [] then []
    else
      assert xs == [xs[0]] + xs[1..];
      InsertDistinct(xs[0], SortDistinct(xs[1..]))
  }

  /** The categories of the enabled characters, in row order (nulls excluded). */
  function ListedCategories(table: seq<Character>): (r: seq<string>)
    ensures forall y :: y in r <==> exists i | 0 <= i < |table| :: Listed(table[i]) && table[i].category == Some(y)
  {
    if table == [] then []
    else
      var rest := ListedCategories(table[1..]);
      assert forall i | 1 <= i < |table| :: table[i] == table[1..][i - 1];
      if Listed(table[0]) && table[0].category.Some? then [table[0].category.value] + rest else rest
  }

  /** `getAllCategories`: each category of an enabled character once, in ascending order. */
  function GetAllCategories(table: seq<Character>): (r: seq<string>)
    ensures StrictlySorted(r)
    ensures forall y :: y in r <==> exists i | 0 <= i < |table| :: Listed(table[i]) && table[i].category == Some(y)
  {
    SortDistinct(ListedCategories(table))
  }

  /** A strictly sorted list never repeats a category. */
  lemma CategoriesDistinct(table: seq<Character>)
    ensures forall i, j | 0 <= i < j < |GetAllCategories(table)| :: GetAllCategories(table)[i] != GetAllCategories(table)[j]
  {
    var r := GetAllCategories(table);
    forall i, j | 0 <= i < j < |r| ensures r[i] != r[j] {
      LessIrreflexive(r[i]);
    }
  }

  predicate InCategory(c: Character, category: Option<string>) {
    Listed(c) && category.Some? && c.category == category
  }

  /** `getCharactersByCategory`: enabled characters of that category, newest first; a null category matches nothing. */
  function GetCharactersByCategory(table: seq<Character>, category: Option<string>): (r: seq<Character>)
    ensures NewestFirst(r)
    ensures forall i | 0 <= i < |r| :: InCategory(r[i], category)
    ensures forall i | 0 <= i < |table| && InCategory(table[i], category) :: table[i] in r
    ensures category.None? ==> r == []
    ensures multiset(r) <= multiset(table)
  {
    SelectNewestFirst(table, c => InCategory(c, category))
  }

  // ------------------------------------------------------ popular, recommended

  /** All enabled characters, newest first: the rows `LIMIT` cuts. */
  function ListedNewestFirst(table: seq<Character>): (r: seq<Character>)
    ensures NewestFirst(r)
    ensures forall i | 0 <= i < |r| :: Listed(r[i])
    ensures forall i | 0 <= i < |table| && Listed(table[i]) :: table[i] in r
  {
    SelectNewestFirst(table, Listed)
  }

  /**
   * `getPopularCharacters`: the newest `limit` enabled characters. The limit
   * is pasted into the SQL text, so a null or negative limit makes the
   * statement fail.
   */
  function GetPopularCharacters(table: seq<Character>, limit: Option<int>): (r: Result<seq<Character>, SqlError>)
    ensures r.Err? <==> limit.None? || limit.value < 0
    ensures r.Ok? ==> |r.value| <= limit.value && r.value <= ListedNewestFirst(table)
    ensures r.Ok? && limit.value <= |ListedNewestFirst(table)| ==> |r.value| == limit.value
  {
    if limit.None? || limit.value < 0 then Err(SqlSyntaxError)
    else Ok(Take(ListedNewestFirst(table), limit.value))
  }

  const RecommendedCount: nat := 5

  /** `getRecommendedCharacters`: the user is ignored; the five newest enabled characters. */
  function GetRecommendedCharacters(table: seq<Character>, userId: Option<int>): (r: seq<Character>)
    ensures GetPopularCharacters(table, Some(RecommendedCount as int)) == Ok(r)
    ensures |r| <= RecommendedCount
  {
    Take(ListedNewestFirst(table), RecommendedCount)
  }

  /** A larger limit extends the popular list: a smaller limit yields a prefix of it. */
  lemma PopularPrefix(table: seq<Character>, a: nat, b: nat)
    requires a <= b
    ensures GetPopularCharacters(table, Some(a)).value <= GetPopularCharacters(table, Some(b)).value
  {
  }
}
