/**
 * Attribution of a billing record to a team and a provider, from its labels and
 * its seller.
 */
module Labels {
  import opened Schema

  /** One `{key, value}` entry of a record's `labels`. */
  datatype Label = Label(key: string, value: string)

  /** `labels.find(label => label.key === key)`: the first label with that key. */
  function Find(labels: seq<Label>, key: string): (r: Option<Label>)
    ensures r.None? <==> forall i :: 0 <= i < |labels| ==> labels[i].key != key
    ensures r.Some? ==> r.value.key == key && exists i :: 0 <= i < |labels| && labels[i] == r.value && FirstWithKey(labels, key, i)
  {
    if labels == [] then None
    else if labels[0].key == key then
      assert FirstWithKey(labels, key, 0);
      Some(labels[0])
    else
      var r := Find(labels[1..], key);
      if r.Some? then
        var i :| 0 <= i < |labels[1..]| && labels[1..][i] == r.value && FirstWithKey(labels[1..], key, i);
        assert FirstWithKey(labels, key, i + 1);
        r
      else
        r
  }

  /** No label before index `i` has the key. */
  predicate FirstWithKey(labels: seq<Label>, key: string, i: nat)
    requires i < |labels|
  {
    forall j :: 0 <= j < i ==> labels[j].key != key
  }

  /** The outcome of `Math.floor(Math.random() * 3) + 1`. */
  type Pick = k: int | 1 <= k <= 3 witness 1

  /** `Team ${k}` for a drawn `k`. */
  function PoolTeam(k: Pick): (name: string)
    ensures name in FallbackPool
  {
    var digit := ('0' as int + k) as char;
    assert digit == (if k == 1 then '1' else if k == 2 then '2' else '3');
    assert "Team " + ['1'] == "Team 1" && "Team " + ['2'] == "Team 2" && "Team " + ['3'] == "Team 3";
    "Team " + [digit]
  }

  const FallbackPool: set<string> := {"Team 1", "Team 2", "Team 3"}

  /** The transactional run's team: the value of the first "owner" label, even an empty
      one, and otherwise the pool name numbered by the random draw `k`. */
  function OwnerTeam(labels: seq<Label>, k: Pick): (name: string)
    ensures Find(labels, "owner").Some? ==> name == Find(labels, "owner").value.value
    ensures Find(labels, "owner").None? ==> name in FallbackPool
  {
    match Find(labels, "owner")
    case Some(owner) => owner.value
    case None => PoolTeam(k)
  }

  /** The mock load's team: the value of the first "team" label unless that label is
      missing or its value is empty, and "Team A" otherwise. */
  function MockTeam(labels: seq<Label>): (name: string)
    ensures name != ""
    ensures Find(labels, "team").Some? && Find(labels, "team").value.value != "" ==>
      name == Find(labels, "team").value.value
    ensures Find(labels, "team").None? || Find(labels, "team").value.value == "" ==> name == "Team A"
  {
    var found := Find(labels, "team");
    if found.Some? && found.value.value != "" then found.value.value else "Team A"
  }

  /** The mock load's provider: `seller_name || "Google Cloud"`. */
  function MockProvider(sellerName: Option<string>): (provider: string)
    ensures provider != ""
    ensures sellerName.Some? && sellerName.value != "" ==> provider == sellerName.value
    ensures sellerName.None? || sellerName.value == "" ==> provider == "Google Cloud"
  {
    if sellerName.Some? && sellerName.value != "" then sellerName.value else "Google Cloud"
  }
}
