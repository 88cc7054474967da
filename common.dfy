/** Declarations shared by both versions of the PingPongOS scheduling kernel:
    the task state enum, queue identities, the abstract queue library and
    the priority arithmetic (clamping and aging), which is the same code in
    both versions. */
module Common {

  datatype Option<T> = None | Some(value: T)

  /** A task descriptor is addressed by a stable handle into the task arena. */
  type Handle = nat

  /** The states of enum status_t. */
  datatype Status = Novo | Pronto | Executando | Suspenso | Finalizado

  /** Which queue a task is linked into: the ready queue or a caller-owned
      wait queue handed to task_suspend. */
  datatype QueueId = ReadyQueue | WaitQueue(n: nat)

  // ---------------------------------------------------------------------
  // The queue library (queue_append, queue_remove), modelled on sequences:
  // append at the tail and remove by identity.

  predicate NoDup(s: seq<Handle>) {
    forall i, j :: 0 <= i < j < |s| ==> s[i] != s[j]
  }

  /** queue_remove: the queue without element x, the order of the rest kept. */
  function Remove(s: seq<Handle>, x: Handle): (r: seq<Handle>)
    ensures forall y :: y in r <==> y in s && y != x
    ensures |r| <= |s|
    ensures x !in s ==> r == s
    ensures NoDup(s) ==> NoDup(r)
  {
    if s == [] then []
    else if s[0] == x then Remove(s[1..], x)
    else
      var r := Remove(s[1..], x);
      assert NoDup(s) ==> forall k :: 0 <= k < |s[1..]| ==> s[1..][k] != s[0];
      assert NoDup(s) ==> s[0] !in r;
      assert forall k :: 0 < k < |[s[0]] + r| ==> ([s[0]] + r)[k] == r[k - 1];
      [s[0]] + r
  }

  /** queue_remove unlinks one node of a queue without repetitions and leaves
      the others where they were: the queue is its part before x followed by
      its part after x. */
  lemma {:induction false} RemoveDropsOne(s: seq<Handle>, x: Handle, i: nat)
    requires NoDup(s) && i < |s| && s[i] == x
    ensures Remove(s, x) == s[..i] + s[i + 1..]
  {
    if i == 0 {
      assert x !in s[1..] by {
        forall k | 0 <= k < |s[1..]| ensures s[1..][k] != x {
          assert s[1..][k] == s[k + 1];
        }
      }
    } else {
      assert s[0] != x;
      assert NoDup(s[1..]) by {
        forall a, b | 0 <= a < b < |s[1..]| ensures s[1..][a] != s[1..][b] {
          assert s[1..][a] == s[a + 1] && s[1..][b] == s[b + 1];
        }
      }
      RemoveDropsOne(s[1..], x, i - 1);
      assert s[1..][..i - 1] == s[1..i] && s[1..][i..] == s[i + 1..];
      assert s[..i] + s[i + 1..] == [s[0]] + (s[1..i] + s[i + 1..]);
    }
  }

  /** The sequence a queue variable holds; a queue never written to is empty. */
  function QueueOr(queues: map<QueueId, seq<Handle>>, q: QueueId): seq<Handle> {
    if q in queues then queues[q] else []
  }

  /** Unlinks h from the queue its membership field names, if any. */
  function Detach(queues: map<QueueId, seq<Handle>>, fila: Option<QueueId>, h: Handle): map<QueueId, seq<Handle>> {
    if fila.Some? && fila.value in queues then queues[fila.value := Remove(queues[fila.value], h)]
    else queues
  }

  /** Unlinks h from the queue named by fila and appends it at the tail of q. */
  function MoveTo(queues: map<QueueId, seq<Handle>>, fila: Option<QueueId>, h: Handle, q: QueueId): (r: map<QueueId, seq<Handle>>)
    ensures q in r
  {
    var d := Detach(queues, fila, h);
    d[q := QueueOr(d, q) + [h]]
  }

  /** What the move does queue by queue: q ends with h after its other
      members (h taken out of them when fila names q itself), the queue fila
      names loses h, and every other queue is left as it was. */
  lemma MoveToEffect(queues: map<QueueId, seq<Handle>>, fila: Option<QueueId>, h: Handle, q: QueueId)
    ensures var r := MoveTo(queues, fila, h, q);
      r.Keys == queues.Keys + {q} &&
      r[q] == (if fila == Some(q) && q in queues then Remove(queues[q], h) else QueueOr(queues, q)) + [h] &&
      (fila.Some? && fila.value in queues && fila.value != q ==> r[fila.value] == Remove(queues[fila.value], h)) &&
      (forall k :: k in queues && k != q && fila != Some(k) ==> r[k] == queues[k])
  {
  }

  // ---------------------------------------------------------------------
  // Membership bookkeeping shared by both versions: every queued handle is a
  // known task, no queue holds a task twice, and a task's membership field
  // names exactly the queue it is linked into (hence at most one queue).

  ghost predicate Linked(fila: map<Handle, Option<QueueId>>, queues: map<QueueId, seq<Handle>>) {
    (forall q :: q in queues ==> NoDup(queues[q])) &&
    (forall q, h :: q in queues && h in queues[q] ==> h in fila && fila[h] == Some(q)) &&
    (forall h :: h in fila && fila[h].Some? ==> fila[h].value in queues && h in queues[fila[h].value])
  }

  /** Moving one task to the tail of a queue keeps the membership bookkeeping. */
  lemma MoveToKeepsLinked(fila: map<Handle, Option<QueueId>>, queues: map<QueueId, seq<Handle>>, h: Handle, q: QueueId)
    requires Linked(fila, queues) && h in fila
    ensures Linked(fila[h := Some(q)], MoveTo(queues, fila[h], h, q))
  {
    var d := Detach(queues, fila[h], h);
    var f' := fila[h := Some(q)];
    var r := MoveTo(queues, fila[h], h, q);
    assert forall q' :: q' in d ==> NoDup(d[q']) && h !in d[q'];
    assert NoDup(QueueOr(d, q) + [h]);
    forall q', g | q' in r && g in r[q']
      ensures g in f' && f'[g] == Some(q')
    {
      if q' == q {
        assert g in QueueOr(d, q) + [h];
      }
    }
  }

  /** Unlinking a task from its queue and clearing its membership field keeps
      the membership bookkeeping. */
  lemma DetachKeepsLinked(fila: map<Handle, Option<QueueId>>, queues: map<QueueId, seq<Handle>>, h: Handle)
    requires Linked(fila, queues) && h in fila
    ensures Linked(fila[h := None], Detach(queues, fila[h], h))
  {
  }

  /** Reordering the members of one queue keeps the membership bookkeeping. */
  lemma PermuteKeepsLinked(fila: map<Handle, Option<QueueId>>, queues: map<QueueId, seq<Handle>>, q: QueueId, s: seq<Handle>)
    requires Linked(fila, queues) && q in queues && multiset(s) == multiset(queues[q])
    ensures Linked(fila, queues[q := s])
  {
    PermutationKeepsNoDup(queues[q], s);
    assert forall h :: h in s <==> h in multiset(queues[q]);
  }

  /** A list without repetitions holds each element at most once. */
  lemma {:induction false} NoDupCount(s: seq<Handle>, x: Handle)
    requires NoDup(s)
    ensures multiset(s)[x] <= 1
  {
    if s != [] {
      assert s == [s[0]] + s[1..];
      assert NoDup(s[1..]) by {
        forall i, j | 0 <= i < j < |s[1..]| ensures s[1..][i] != s[1..][j] {
          assert s[1..][i] == s[i + 1] && s[1..][j] == s[j + 1];
        }
      }
      NoDupCount(s[1..], x);
      if x == s[0] {
        assert forall i :: 0 <= i < |s[1..]| ==> s[1..][i] == s[i + 1] && s[i + 1] != s[0];
        assert x !in s[1..];
      }
    }
  }

  /** Two equal elements at distinct positions count twice. */
  lemma TwoCopies(s: seq<Handle>, i: nat, j: nat)
    requires i < j < |s|
    ensures s[i] == s[j] ==> multiset(s)[s[i]] >= 2
  {
    assert s == s[..j] + [s[j]] + s[j + 1..];
    assert s[..j][i] == s[i];
    assert s[i] in multiset(s[..j]);
  }

  /** A permutation of a list without repetitions has none either. */
  lemma PermutationKeepsNoDup(a: seq<Handle>, b: seq<Handle>)
    requires NoDup(a) && multiset(a) == multiset(b)
    ensures NoDup(b)
  {
    forall i, j | 0 <= i < j < |b|
      ensures b[i] != b[j]
    {
      NoDupCount(a, b[i]);
      TwoCopies(b, i, j);
    }
  }

  // ---------------------------------------------------------------------
  // Walking a circular list.

  /** Where x sits in the list it is linked into. */
  function IndexOf(s: seq<Handle>, x: Handle): (i: nat)
    requires x in s
    ensures i < |s| && s[i] == x
  {
    if s[0] == x then 0 else 1 + IndexOf(s[1..], x)
  }

  /** The steps it takes to walk a circular list of length n from position
      `from` forward to position i. */
  function Steps(from: nat, i: nat, n: nat): nat
    requires from < n && i < n
  {
    if from < i then i - from else i + n - from
  }
}
