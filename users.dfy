/**
 * The `bot_users` table (db/model.py) and the language find-or-insert of
 * `language_handler` (main.py). The table is a map from `telegram_id` (the
 * unique column) to the rest of the row; `id` is the autoincrement key.
 */
module Users {
  import opened Wrappers
  import Selector

  /** A row without its clock-valued `create_at` and `updated_at` columns. */
  datatype User = User(id: nat, lang: string, fullname: string, role: string)

  /** The role column's default. */
  const DefaultRole: string := "user"

  predicate IsLanguage(code: string) { code in Selector.LanguageCodes }

  /**
   * The table's invariant: the surrogate ids are distinct and below the next
   * id to hand out, and every stored language is one the localisation table
   * has (`start_handler` indexes it with the stored code).
   */
  ghost predicate WellFormed(rows: map<int, User>, nextId: nat) {
    && (forall t :: t in rows ==> rows[t].id < nextId && IsLanguage(rows[t].lang))
    && (forall t, u :: t in rows && u in rows && t != u ==> rows[t].id != rows[u].id)
  }

  /** The rows after the find-or-insert of `language_handler`. */
  function Upserted(rows: map<int, User>, nextId: nat, telegramId: int, lang: string, fullname: string): (r: map<int, User>)
    ensures r.Keys == rows.Keys + {telegramId}
    ensures forall t :: t in rows && t != telegramId ==> r[t] == rows[t]
  {
    if telegramId in rows then rows[telegramId := rows[telegramId].(lang := lang)]
    else rows[telegramId := User(nextId, lang, fullname, DefaultRole)]
  }

  function NextIdAfter(rows: map<int, User>, nextId: nat, telegramId: int): nat {
    if telegramId in rows then nextId else nextId + 1
  }

  /** For a known user only the language changes and no row is added. */
  lemma UpsertExisting(rows: map<int, User>, nextId: nat, telegramId: int, lang: string, fullname: string)
    requires telegramId in rows
    ensures var r := Upserted(rows, nextId, telegramId, lang, fullname);
      && r.Keys == rows.Keys && |r| == |rows|
      && r[telegramId] == rows[telegramId].(lang := lang)
  {
    var r := Upserted(rows, nextId, telegramId, lang, fullname);
    assert r.Keys == rows.Keys;
  }

  /** For a new user exactly one row is added: the given language and name, role "user", the next id. */
  lemma UpsertNew(rows: map<int, User>, nextId: nat, telegramId: int, lang: string, fullname: string)
    requires telegramId !in rows
    ensures var r := Upserted(rows, nextId, telegramId, lang, fullname);
      && |r| == |rows| + 1
      && r[telegramId] == User(nextId, lang, fullname, DefaultRole)
  {
    var r := Upserted(rows, nextId, telegramId, lang, fullname);
    assert r.Keys == rows.Keys + {telegramId};
  }

  /** The invariant survives an upsert with a routed language code. */
  lemma UpsertKeepsWellFormed(rows: map<int, User>, nextId: nat, telegramId: int, lang: string, fullname: string)
    requires WellFormed(rows, nextId) && IsLanguage(lang)
    ensures WellFormed(Upserted(rows, nextId, telegramId, lang, fullname), NextIdAfter(rows, nextId, telegramId))
  {
  }

  /**
   * Choosing a language again updates the same row: the second call adds
   * nothing, the last language wins, and the name recorded at insertion stays.
   */
  lemma UpsertTwice(rows: map<int, User>, nextId: nat, telegramId: int, lang1: string, name1: string, lang2: string, name2: string)
    ensures var once := Upserted(rows, nextId, telegramId, lang1, name1);
      Upserted(once, NextIdAfter(rows, nextId, telegramId), telegramId, lang2, name2)
        == Upserted(rows, nextId, telegramId, lang2, name1)
  {
  }

  class UserTable {
    var rows: map<int, User>
    var nextId: nat

    ghost predicate Valid()
      reads this
    {
      WellFormed(rows, nextId)
    }

    constructor ()
      ensures Valid() && rows == map[] && nextId == 1
    {
      rows := map[];
      nextId := 1;
    }

    /** `select(User).where(User.telegram_id == telegramId)` and `fetchone()`. */
    method Find(telegramId: int) returns (u: Option<User>)
      requires Valid()
      ensures u.Some? <==> telegramId in rows
      ensures u.Some? ==> u.value == rows[telegramId]
    {
      if telegramId in rows {
        u := Some(rows[telegramId]);
      } else {
        u := None;
      }
    }

    /**
     * `language_handler`'s database work: a found row gets `lang` set and is
     * committed; otherwise one new row is added with role "user".
     */
    method SetLanguage(telegramId: int, lang: string, fullname: string)
      requires Valid() && IsLanguage(lang)
      modifies this
      ensures Valid()
      ensures rows == Upserted(old(rows), old(nextId), telegramId, lang, fullname)
      ensures nextId == NextIdAfter(old(rows), old(nextId), telegramId)
      ensures telegramId in rows && rows[telegramId].lang == lang
    {
      UpsertKeepsWellFormed(rows, nextId, telegramId, lang, fullname);
      var found := Find(telegramId);
      if found.Some? {
        rows := rows[telegramId := found.value.(lang := lang)];
      } else {
        rows := rows[telegramId := User(nextId, lang, fullname, DefaultRole)];
        nextId := nextId + 1;
      }
    }
  }
}
