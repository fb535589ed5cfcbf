/**
 The provider's own service list: the mount effect that redirects or loads,
 the remove-by-id after a confirmed delete, and the count line.
 */
module MyServicesPage {
  import opened Values
  import opened Seqs
  import opened Text

  /** What the mount effect does for a given auth state. */
  datatype Effect = RedirectToLogin | LoadServices | Wait

  /** `if (!user && !loading) push('/login') else if (user) load`. */
  function MountEffect(user: Option<Row>, loading: bool): (e: Effect)
    ensures e == RedirectToLogin <==> user.None? && !loading
    ensures e == LoadServices <==> user.Some?
    ensures e == Wait <==> user.None? && loading
  {
    if user.None? && !loading then RedirectToLogin
    else if user.Some? then LoadServices
    else Wait
  }

  /** `services.filter(service => service.id !== serviceId)`, applied only
      once the confirmation dialog is accepted. */
  function DeleteService(services: seq<Row>, serviceId: Value, confirmed: bool): (r: seq<Row>)
    ensures !confirmed ==> r == services
    ensures confirmed ==> forall s :: s in r <==> s in services && Get(s, "id") != serviceId
    ensures confirmed ==> IsSubsequence(r, services)
    ensures |r| <= |services|
  {
    if confirmed then Filter(services, (s: Row) => Get(s, "id") != serviceId) else services
  }

  /** Only services carrying that id are dropped, each one counted with its
      multiplicity, and the rest keep their relative order. */
  lemma {:induction false} DeleteRemovesExactly(services: seq<Row>, serviceId: Value, s: Row)
    ensures multiset(DeleteService(services, serviceId, true))[s]
            == if Get(s, "id") == serviceId then 0 else multiset(services)[s]
    ensures IsSubsequence(DeleteService(services, serviceId, true), services)
  {
    FilterCount(services, (r: Row) => Get(r, "id") != serviceId, s);
  }

  /** Deleting an id that no service has leaves the list as it was. */
  lemma {:induction false} DeleteAbsent(services: seq<Row>, serviceId: Value)
    requires forall i :: 0 <= i < |services| ==> Get(services[i], "id") != serviceId
    ensures DeleteService(services, serviceId, true) == services
  {
    FilterAllKept(services, (r: Row) => Get(r, "id") != serviceId);
  }

  /** Deleting twice is deleting once. */
  lemma {:induction false} DeleteTwice(services: seq<Row>, serviceId: Value)
    ensures DeleteService(DeleteService(services, serviceId, true), serviceId, true)
            == DeleteService(services, serviceId, true)
  {
    FilterIdempotent(services, (r: Row) => Get(r, "id") != serviceId);
  }

  /** `${n} service${n !== 1 ? 's' : ''} listed`. */
  function CountLine(n: nat): (line: string)
    ensures NatToString(n) <= line
  {
    NatToString(n) + " service" + (if n != 1 then "s" else "") + " listed"
  }

  /** The noun is singular exactly when there is one service. */
  lemma {:induction false} CountLineSingular(n: nat)
    ensures CountLine(n) == NatToString(n) + " service listed" <==> n == 1
  {
    if n != 1 {
      assert |CountLine(n)| == |NatToString(n) + " service listed"| + 1;
    }
  }
}
