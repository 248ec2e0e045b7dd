/** The per-branch in-memory vehicle queue of the branch entry-control web app.

    A fixed list of branches (`FILIAIS`) each owns a queue of records.  Staff
    register a vehicle (plate, service request) at a branch, which appends a
    record numbered with the queue's length plus one, and later release a
    record by its number, which drops every record carrying that number and
    hands the first one, with the branch and the release time, to an
    append-only history store (`historico`).  Records are never renumbered,
    so numbers can repeat after a release; the lemmas below make that visible.
 */
module Fila {

  datatype Option<T> = None | Some(value: T)

  /** The only failure of the core: a branch name that is not a key of the
      table (Python's `KeyError`). */
  datatype Error = KeyError(key: string)

  datatype Result<T> = Ok(value: T) | Err(error: Error)

  /** The branches, in selector order; the first is the default branch. */
  const FILIAIS: seq<string> := ["RIO", "SALVADOR", "AVENIDA", "DUTRA", "SEDE", "ITABUNA"]

  /** One queued vehicle: its number in the queue (`ordem`), plate, service
      request and the registration clock reading, kept as formatted text. */
  datatype Entry = Entry(ordem: int, placa: string, solicitacao: string, hora: string)

  /** A history record: the released entry, the branch it left and the
      release time, an opaque clock value supplied by the caller. */
  datatype Archived = Archived(veiculo: Entry, filial: string, liberadoEm: int)

  /** One registration form: plate, request text and the clock reading. */
  datatype Request = Request(placa: string, solicitacao: string, hora: string)

  /** The queue table: branch name to its queue, front first. */
  type Table = map<string, seq<Entry>>

  /** The start-up table: every branch of FILIAIS, and nothing else, with an empty queue. */
  function InitialTable(): (t: Table)
    ensures forall f :: f in t <==> f in FILIAIS
    ensures forall f :: f in t ==> t[f] == []
  {
    map f | f in FILIAIS :: []
  }

  /** The queue after one registration: a record numbered length plus one at the end. */
  function Enqueued(q: seq<Entry>, placa: string, solicitacao: string, hora: string): (r: seq<Entry>)
    ensures |r| == |q| + 1
    ensures r[..|q|] == q
    ensures r[|q|] == Entry(|q| + 1, placa, solicitacao, hora)
  {
    q + [Entry(|q| + 1, placa, solicitacao, hora)]
  }

  /** The numbers of a queue, front first. */
  function Ordinals(q: seq<Entry>): (r: seq<int>)
  {
    seq(|q|, i requires 0 <= i < |q| => q[i].ordem)
  }

  /** The position of the first record, front first, numbered `ordem`;
      the length of the queue when there is none. */
  function FirstIndex(q: seq<Entry>, ordem: int): (i: nat)
    ensures i <= |q|
    ensures i < |q| ==> q[i].ordem == ordem
    ensures forall j :: 0 <= j < i ==> q[j].ordem != ordem
  {
    if q == [] || q[0].ordem == ordem then 0
    else 1 + FirstIndex(q[1..], ordem)
  }

  /** The first record, front first, whose number is `ordem`, if any. */
  function FindFirst(q: seq<Entry>, ordem: int): (r: Option<Entry>)
    ensures r.None? <==> forall i :: 0 <= i < |q| ==> q[i].ordem != ordem
    ensures r.Some? ==> exists i :: 0 <= i < |q| && q[i] == r.value && q[i].ordem == ordem &&
                                    forall j :: 0 <= j < i ==> q[j].ordem != ordem
  {
    var i := FirstIndex(q, ordem);
    if i < |q| then Some(q[i]) else None
  }

  /** How many records of the queue carry the number `ordem`. */
  function Count(q: seq<Entry>, ordem: int): (n: nat)
    ensures n <= |q|
    ensures n > 0 <==> exists i :: 0 <= i < |q| && q[i].ordem == ordem
  {
    if q == [] then 0
    else
      assert forall i :: 0 < i < |q| ==> q[i] == q[1..][i - 1];
      (if q[0].ordem == ordem then 1 else 0) + Count(q[1..], ordem)
  }

  /** The queue with every record numbered `ordem` dropped, the others kept in order. */
  function RemoveAll(q: seq<Entry>, ordem: int): (r: seq<Entry>)
    ensures |r| <= |q|
    ensures forall i :: 0 <= i < |r| ==> r[i].ordem != ordem
  {
    if q == [] then []
    else if q[0].ordem == ordem then RemoveAll(q[1..], ordem)
    else [q[0]] + RemoveAll(q[1..], ordem)
  }

  /** A release drops exactly as many records as carry the released number. */
  lemma {:induction false} RemoveAllLength(q: seq<Entry>, ordem: int)
    ensures |RemoveAll(q, ordem)| == |q| - Count(q, ordem)
  {
    if q != [] {
      RemoveAllLength(q[1..], ordem);
    }
  }

  /** A queue in which no record carries `ordem` is left as it is. */
  lemma {:induction false} RemoveAllNoMatch(q: seq<Entry>, ordem: int)
    requires forall i :: 0 <= i < |q| ==> q[i].ordem != ordem
    ensures RemoveAll(q, ordem) == q
  {
    if q != [] {
      assert forall i :: 0 <= i < |q| - 1 ==> q[1..][i] == q[i + 1];
      RemoveAllNoMatch(q[1..], ordem);
      assert q == [q[0]] + q[1..];
    }
  }

  /** Dropping the records numbered `ordem` acts on each part of a queue on its own,
      so the survivors keep their relative order. */
  lemma {:induction false} RemoveAllConcat(a: seq<Entry>, b: seq<Entry>, ordem: int)
    ensures RemoveAll(a + b, ordem) == RemoveAll(a, ordem) + RemoveAll(b, ordem)
  {
    if a == [] {
      assert a + b == b;
    } else {
      assert (a + b)[0] == a[0];
      assert (a + b)[1..] == a[1..] + b;
      RemoveAllConcat(a[1..], b, ordem);
    }
  }

  /** A record survives a release of `ordem` exactly when it was queued and
      carries another number. */
  lemma {:induction false} RemoveAllMembers(q: seq<Entry>, ordem: int, e: Entry)
    ensures e in RemoveAll(q, ordem) <==> e in q && e.ordem != ordem
  {
    if q != [] {
      RemoveAllMembers(q[1..], ordem, e);
      assert q == [q[0]] + q[1..];
    }
  }

  /** The records are numbered by position, 1 at the front. */
  predicate NumberedFromOne(q: seq<Entry>)
  {
    forall i :: 0 <= i < |q| ==> q[i].ordem == i + 1
  }

  /** No two records share a number. */
  predicate DistinctOrdinals(q: seq<Entry>)
  {
    forall i, j :: 0 <= i < j < |q| ==> q[i].ordem != q[j].ordem
  }

  /** The queue after the given registrations, in order, with no release between them. */
  function RegisterAll(q: seq<Entry>, rs: seq<Request>): (r: seq<Entry>)
    decreases |rs|
  {
    if rs == [] then q
    else RegisterAll(Enqueued(q, rs[0].placa, rs[0].solicitacao, rs[0].hora), rs[1..])
  }

  /** Registrations only append: the old queue stays as it was, and the j-th new
      record carries the j-th form and the number old length plus j plus one. */
  lemma {:induction false} RegisterAllAppends(q: seq<Entry>, rs: seq<Request>)
    decreases |rs|
    ensures |RegisterAll(q, rs)| == |q| + |rs|
    ensures RegisterAll(q, rs)[..|q|] == q
    ensures forall j :: 0 <= j < |rs| ==>
      RegisterAll(q, rs)[|q| + j] == Entry(|q| + j + 1, rs[j].placa, rs[j].solicitacao, rs[j].hora)
  {
    if rs != [] {
      var q1 := Enqueued(q, rs[0].placa, rs[0].solicitacao, rs[0].hora);
      RegisterAllAppends(q1, rs[1..]);
      assert RegisterAll(q, rs) == RegisterAll(q1, rs[1..]);
      assert q1[..|q|] == q;
      forall j | 0 <= j < |rs|
        ensures RegisterAll(q, rs)[|q| + j] == Entry(|q| + j + 1, rs[j].placa, rs[j].solicitacao, rs[j].hora)
      {
        if j > 0 {
          assert rs[1..][j - 1] == rs[j];
          assert |q1| + (j - 1) == |q| + j;
        }
      }
    }
  }

  /** From an empty queue, registrations alone number the records exactly
      1..n in insertion order, so no two records share a number. */
  lemma {:induction false} FreshQueueNumbering(rs: seq<Request>)
    ensures |RegisterAll([], rs)| == |rs|
    ensures forall j :: 0 <= j < |rs| ==>
      RegisterAll([], rs)[j] == Entry(j + 1, rs[j].placa, rs[j].solicitacao, rs[j].hora)
    ensures NumberedFromOne(RegisterAll([], rs)) && DistinctOrdinals(RegisterAll([], rs))
  {
    var empty: seq<Entry> := [];
    RegisterAllAppends(empty, rs);
    var r := RegisterAll(empty, rs);
    assert forall j :: 0 <= j < |r| ==> r[j].ordem == j + 1 by {
      forall j | 0 <= j < |r| ensures r[j].ordem == j + 1 {
        assert r[|empty| + j] == Entry(|empty| + j + 1, rs[j].placa, rs[j].solicitacao, rs[j].hora);
      }
    }
  }

  /** While numbers are distinct, a release of a present number finds exactly that
      record and drops exactly it, keeping the others in order. */
  lemma {:induction false} ReleaseOfDistinctRemovesOne(q: seq<Entry>, i: nat)
    requires DistinctOrdinals(q)
    requires i < |q|
    ensures FindFirst(q, q[i].ordem) == Some(q[i])
    ensures RemoveAll(q, q[i].ordem) == q[..i] + q[i + 1..]
  {
    var k := q[i].ordem;
    var pre, post := q[..i], q[i + 1..];
    assert forall j :: 0 <= j < |pre| ==> pre[j].ordem != k by {
      forall j | 0 <= j < |pre| ensures pre[j].ordem != k {
        assert pre[j] == q[j];
      }
    }
    assert forall j :: 0 <= j < |post| ==> post[j].ordem != k by {
      forall j | 0 <= j < |post| ensures post[j].ordem != k {
        assert post[j] == q[i + 1 + j];
      }
    }
    assert q == pre + ([q[i]] + post);
    RemoveAllAround(pre, q[i], post, k);
  }

  /** A release drops the one record with its number and nothing around it. */
  lemma {:induction false} RemoveAllAround(pre: seq<Entry>, x: Entry, post: seq<Entry>, ordem: int)
    requires x.ordem == ordem
    requires forall j :: 0 <= j < |pre| ==> pre[j].ordem != ordem
    requires forall j :: 0 <= j < |post| ==> post[j].ordem != ordem
    ensures RemoveAll(pre + ([x] + post), ordem) == pre + post
  {
    RemoveAllNoMatch(pre, ordem);
    RemoveAllNoMatch(post, ordem);
    RemoveAllConcat(pre, [x] + post, ordem);
    RemoveAllConcat([x], post, ordem);
  }

  /** Two records with the same number are both dropped by one release, while
      the lookup that picks the record to archive stops at the earlier one. */
  lemma {:induction false} ReleaseDropsEveryDuplicate(q: seq<Entry>, i: nat, j: nat)
    requires i < j < |q| && q[i].ordem == q[j].ordem
    ensures FirstIndex(q, q[j].ordem) <= i
    ensures FindFirst(q, q[j].ordem) == Some(q[FirstIndex(q, q[j].ordem)])
    ensures |RemoveAll(q, q[j].ordem)| <= |q| - 2
  {
    var k := q[j].ordem;
    assert q == q[..j] + q[j..];
    RemoveAllConcat(q[..j], q[j..], k);
    RemoveAllLength(q[..j], k);
    RemoveAllLength(q[j..], k);
    assert q[..j][i].ordem == k;
    assert q[j..][0].ordem == k;
  }

  /** With distinct numbers 1..n, releasing any record but the last and then
      registering once leaves two records numbered n at the back of the queue. */
  lemma {:induction false} RegisterAfterReleaseRepeatsOrdinal(q: seq<Entry>, k: int, placa: string, solicitacao: string, hora: string)
    requires NumberedFromOne(q)
    requires 1 <= k < |q|
    ensures var after := Enqueued(RemoveAll(q, k), placa, solicitacao, hora);
            |after| == |q| && after[|q| - 2].ordem == |q| && after[|q| - 1].ordem == |q|
            && !DistinctOrdinals(after)
  {
    assert q[k - 1].ordem == k;
    ReleaseOfDistinctRemovesOne(q, k - 1);
    var rest := RemoveAll(q, k);
    assert rest == q[..k - 1] + q[k..];
    assert rest[|q| - 2] == q[|q| - 1];
  }

  /** The live queue table and the history store of one running process. */
  class Queues {
    var fila: Table
    var historico: seq<Archived>

    /** The table holds exactly the branches of FILIAIS, every queued record
        carries a positive number, and every history record names a branch. */
    ghost predicate Valid()
      reads this
    {
      && (forall f :: f in fila <==> f in FILIAIS)
      && (forall f, e :: f in fila && e in fila[f] ==> e.ordem >= 1)
      && (forall a :: a in historico ==> a.filial in FILIAIS && a.veiculo.ordem >= 1)
    }

    /** Process start-up: every branch with an empty queue, nothing archived. */
    constructor ()
      ensures Valid()
      ensures fila == InitialTable() && historico == []
    {
      fila := InitialTable();
      historico := [];
    }

    /** The listing page: the selected branch (FILIAIS[0] when none is given)
        and its queue, or the empty queue for a branch that is not in the table. */
    method List(requested: Option<string>) returns (filial: string, lista: seq<Entry>)
      ensures requested.Some? ==> filial == requested.value
      ensures requested.None? ==> filial == "RIO"
      ensures filial in fila ==> lista == fila[filial]
      ensures filial !in fila ==> lista == []
    {
      filial := if requested.Some? then requested.value else FILIAIS[0];
      lista := if filial in fila then fila[filial] else [];
    }

    /** Registration: the branch's queue grows by one record at the back,
        numbered with the old length plus one; an unknown branch is a KeyError
        and changes nothing. Nothing is validated. */
    method Register(filial: string, placa: string, solicitacao: string, hora: string) returns (r: Result<Entry>)
      requires Valid()
      modifies this
      ensures Valid()
      ensures historico == old(historico)
      ensures filial !in FILIAIS ==> r == Err(KeyError(filial)) && fila == old(fila)
      ensures filial in FILIAIS ==>
        && r == Ok(Entry(|old(fila)[filial]| + 1, placa, solicitacao, hora))
        && fila == old(fila)[filial := Enqueued(old(fila)[filial], placa, solicitacao, hora)]
      ensures forall g :: g in old(fila) && g != filial ==> g in fila && fila[g] == old(fila)[g]
    {
      if filial !in fila {
        return Err(KeyError(filial));
      }
      var registro := Entry(|fila[filial]| + 1, placa, solicitacao, hora);
      fila := fila[filial := Enqueued(fila[filial], placa, solicitacao, hora)];
      r := Ok(registro);
    }

    /** Release of number `ordem` at `filial`, at clock reading `agora`: when some
        record carries that number, every such record leaves the queue and the
        first one is archived with the branch and the time; otherwise nothing
        changes. An unknown branch is a KeyError and changes nothing. */
    method Release(filial: string, ordem: int, agora: int) returns (r: Result<Option<Entry>>)
      requires Valid()
      modifies this
      ensures Valid()
      ensures filial !in FILIAIS ==>
        r == Err(KeyError(filial)) && fila == old(fila) && historico == old(historico)
      ensures filial in FILIAIS ==> r == Ok(FindFirst(old(fila)[filial], ordem))
      ensures r.Ok? && r.value.None? ==> fila == old(fila) && historico == old(historico)
      ensures r.Ok? && r.value.Some? ==>
        && fila == old(fila)[filial := RemoveAll(old(fila)[filial], ordem)]
        && historico == old(historico) + [Archived(r.value.value, filial, agora)]
    {
      if filial !in fila {
        return Err(KeyError(filial));
      }
      var veiculo := FindFirst(fila[filial], ordem);
      if veiculo.Some? {
        forall e | e in RemoveAll(fila[filial], ordem) ensures e in fila[filial] {
          RemoveAllMembers(fila[filial], ordem, e);
        }
        fila := fila[filial := RemoveAll(fila[filial], ordem)];
        historico := historico + [Archived(veiculo.value, filial, agora)];
      }
      r := Ok(veiculo);
    }
  }

  /** Registrations 1, 2, 3 at a branch, a release of 1, one more registration
      and a release of 3: the fourth vehicle is numbered 3 again, and the second
      release drops both records numbered 3 while handing only the first to
      the history store, so the fourth vehicle leaves without a history record. */
  lemma {:induction false} RepeatedOrdinalScenario(v1: Request, v2: Request, v3: Request, v4: Request)
    ensures var q := RegisterAll([], [v1, v2, v3]);
            var afterFirst := RemoveAll(q, 1);
            var q' := Enqueued(afterFirst, v4.placa, v4.solicitacao, v4.hora);
            && Ordinals(q) == [1, 2, 3]
            && FindFirst(q, 1) == Some(Entry(1, v1.placa, v1.solicitacao, v1.hora))
            && Ordinals(q') == [2, 3, 3]
            && FindFirst(q', 3) == Some(Entry(3, v3.placa, v3.solicitacao, v3.hora))
            && Ordinals(RemoveAll(q', 3)) == [2]
  {
    var a := Entry(1, v1.placa, v1.solicitacao, v1.hora);
    var b := Entry(2, v2.placa, v2.solicitacao, v2.hora);
    var c := Entry(3, v3.placa, v3.solicitacao, v3.hora);
    var d := Entry(3, v4.placa, v4.solicitacao, v4.hora);
    var q := RegisterAll([], [v1, v2, v3]);
    FreshQueueNumbering([v1, v2, v3]);
    assert q == [a, b, c];
    assert [a, b, c][1..] == [b, c];
    RemoveAllNoMatch([b, c], 1);
    assert RemoveAll([a, b, c], 1) == [b, c];
    assert Enqueued([b, c], v4.placa, v4.solicitacao, v4.hora) == [b, c, d];
    assert [b, c, d][1..] == [c, d] && [c, d][1..] == [d];
    assert FirstIndex([c, d], 3) == 0 && FirstIndex([b, c, d], 3) == 1;
    assert FindFirst([b, c, d], 3) == Some(c);
    assert RemoveAll([d], 3) == [] && RemoveAll([c, d], 3) == [];
    assert RemoveAll([b, c, d], 3) == [b];
  }
}
