/** The reads of dao/base_dao.py, dao/user_dao.py and dao/post_dao.py, on a
    table modelled as a map from primary key to row. `key` extracts a row's
    id; a table is `Keyed` below `next` when every row sits under its own id
    and every id was handed out by an autoincrement counter now at `next`.

    SQL without ORDER BY promises no order; the model answers in ascending id
    order, so "the first row" (Result.scalar()) is the one with the smallest id. */
module BaseDao {
  import opened Wrappers

  ghost predicate Keyed<T>(table: map<int, T>, key: T -> int, next: int) {
    forall k :: k in table ==> key(table[k]) == k && 1 <= k < next
  }

  /** The members of `s` in the range [lo, hi), each once, in ascending order. */
  function IdsBetween(s: set<int>, lo: int, hi: int): (r: seq<int>)
    ensures forall x :: x in r <==> x in s && lo <= x < hi
    ensures forall i :: 0 <= i < |r| ==> lo <= r[i]
    ensures forall i, j :: 0 <= i < j < |r| ==> r[i] < r[j]
    ensures s == {} ==> r == []
    decreases hi - lo
  {
    if hi <= lo then []
    else if lo in s then [lo] + IdsBetween(s, lo + 1, hi)
    else IdsBetween(s, lo + 1, hi)
  }

  /** The ids of `s`, each once, in ascending order, when every id of `s` was
      handed out by a counter now at `next`. */
  function SortedIds(s: set<int>, next: int): (r: seq<int>)
    requires forall x :: x in s ==> 1 <= x < next
    ensures forall x :: x in r <==> x in s
    ensures forall i, j :: 0 <= i < j < |r| ==> r[i] < r[j]
    ensures s == {} ==> r == []
  {
    IdsBetween(s, 1, next)
  }

  /** The rows with ids in [lo, hi) that `keep` accepts, in ascending id order. */
  function WhereBetween<T(==)>(table: map<int, T>, key: T -> int, keep: T -> bool, lo: int, hi: int): (r: seq<T>)
    requires forall k :: k in table ==> key(table[k]) == k
    ensures forall k :: k in table && keep(table[k]) && lo <= k < hi ==> table[k] in r
    ensures forall i :: 0 <= i < |r| ==> key(r[i]) in table && table[key(r[i])] == r[i] && keep(r[i])
    ensures forall i :: 0 <= i < |r| ==> lo <= key(r[i]) < hi
    ensures forall i, j :: 0 <= i < j < |r| ==> key(r[i]) < key(r[j])
    ensures r != [] ==> forall k :: k in table && keep(table[k]) && lo <= k < hi ==> key(r[0]) <= k
    decreases hi - lo
  {
    if hi <= lo then []
    else
      var rest := WhereBetween(table, key, keep, lo + 1, hi);
      if lo in table && keep(table[lo]) then [table[lo]] + rest else rest
  }

  /** select(Model).where(keep): every row the condition keeps, each once, in
      ascending id order. */
  function Where<T(==)>(table: map<int, T>, key: T -> int, next: int, keep: T -> bool): (r: seq<T>)
    requires Keyed(table, key, next)
    ensures forall k :: k in table && keep(table[k]) ==> table[k] in r
    ensures forall i :: 0 <= i < |r| ==> key(r[i]) in table && table[key(r[i])] == r[i] && keep(r[i])
    ensures forall i, j :: 0 <= i < j < |r| ==> key(r[i]) < key(r[j])
    ensures r != [] ==> forall k :: k in table && keep(table[k]) ==> key(r[0]) <= k
  {
    WhereBetween(table, key, keep, 1, next)
  }

  /** select(Model) (BaseDAO.get_all): every row once, in ascending id order. */
  function Rows<T(==)>(table: map<int, T>, key: T -> int, next: int): (r: seq<T>)
    requires Keyed(table, key, next)
    ensures forall k :: k in table ==> table[k] in r
    ensures forall i :: 0 <= i < |r| ==> key(r[i]) in table && table[key(r[i])] == r[i]
    ensures forall i, j :: 0 <= i < j < |r| ==> key(r[i]) < key(r[j])
  {
    Where(table, key, next, (x: T) => true)
  }

  /** select(Model).where(keep).scalar(): the matching row with the smallest
      id, or None when no row matches. */
  function First<T(==)>(table: map<int, T>, key: T -> int, next: int, keep: T -> bool): (r: Option<T>)
    requires Keyed(table, key, next)
    ensures r.Some? ==> key(r.value) in table && table[key(r.value)] == r.value && keep(r.value)
    ensures r.Some? ==> forall k :: k in table && keep(table[k]) ==> key(r.value) <= k
    ensures r.None? <==> forall k :: k in table ==> !keep(table[k])
  {
    var rows := Where(table, key, next, keep);
    if rows == [] then None else Some(rows[0])
  }
}
