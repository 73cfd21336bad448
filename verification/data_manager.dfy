/** The data manager of communication/data_manager.py: a key-value store of commands, read
    whole or in part, updated key by key, cleared, and read for transmission through the
    safeguard. The disk-backed cache is modelled as an immutable map. */
module DataManager {
  import Safeguard

  type Store = map<string, real>

  /** The keys agreed to be sent over the network. */
  const TransmissionKeys: set<string> :=
    {"Thr_FP", "Thr_FS", "Thr_AP", "Thr_AS", "Thr_TFP", "Thr_TFS", "Thr_TAP", "Thr_TAS",
     "Mot_R", "Mot_G", "Mot_F", "LED_M"}

  /** The part of `m` under the keys in `keys`. */
  function Restrict(m: Store, keys: set<string>): Store
  {
    map k | k in m && k in keys :: m[k]
  }

  /** A read: the whole store when no key is asked for, otherwise the asked keys that are present. */
  function Get(s: Store, args: seq<string>): (r: Store)
    ensures forall k | k in r :: k in s && r[k] == s[k]
    ensures |args| == 0 ==> r.Keys == s.Keys
    ensures |args| > 0 ==> forall k :: k in r <==> k in s && k in args
  {
    if |args| == 0 then s else Restrict(s, set k | k in args)
  }

  /** A write: every given key takes its given value, every other key keeps its own. */
  method Set(s: Store, kwargs: Store) returns (r: Store)
    ensures r.Keys == s.Keys + kwargs.Keys
    ensures forall k | k in kwargs :: r[k] == kwargs[k]
    ensures forall k | k in s && k !in kwargs :: r[k] == s[k]
  {
    r := s;
    var todo := kwargs.Keys;
    while todo != {}
      invariant todo <= kwargs.Keys
      invariant r.Keys == s.Keys + (kwargs.Keys - todo)
      invariant forall k | k in kwargs && k !in todo :: r[k] == kwargs[k]
      invariant forall k | k in s && k !in kwargs :: r[k] == s[k]
      invariant forall k | k in s && k in todo :: r[k] == s[k]
      decreases todo
    {
      var key :| key in todo;
      r := r[key := kwargs[key]];
      todo := todo - {key};
    }
  }

  /** Emptying the cache. */
  function Clear(s: Store): (r: Store)
    ensures forall args :: Get(r, args) == map[]
  {
    map[]
  }

  /** A write followed by a read of the written keys returns exactly what was written. */
  lemma SetThenGet(s: Store, kwargs: Store, args: seq<string>, r: Store)
    requires r.Keys == s.Keys + kwargs.Keys
    requires forall k | k in kwargs :: r[k] == kwargs[k]
    requires forall k | k in s && k !in kwargs :: r[k] == s[k]
    requires |args| > 0 && (set k | k in args) == kwargs.Keys
    ensures Get(r, args) == kwargs
  {
  }

  /** A read of keys no write touched sees the old values. */
  lemma SetKeepsOthers(s: Store, kwargs: Store, args: seq<string>, r: Store)
    requires r.Keys == s.Keys + kwargs.Keys
    requires forall k | k in kwargs :: r[k] == kwargs[k]
    requires forall k | k in s && k !in kwargs :: r[k] == s[k]
    requires |args| > 0 && forall i | 0 <= i < |args| :: args[i] !in kwargs
    ensures Get(r, args) == Get(s, args)
  {
  }

  /** Reading the same keys twice changes nothing. */
  lemma GetIdempotent(s: Store, args: seq<string>)
    ensures Get(Get(s, args), args) == Get(s, args)
  {
  }

  // ------------------------------------------------------------ transmission

  /** The commands chosen for transmission: the asked transmission keys that are present, or
      every present transmission key when none is asked for. */
  function TransmissionData(s: Store, args: seq<string>): (r: Store)
    ensures r.Keys <= TransmissionKeys
    ensures r == Restrict(Get(s, args), TransmissionKeys)
  {
    if |args| > 0 then map k | k in args && k in TransmissionKeys && k in s :: s[k]
    else map k | k in TransmissionKeys && k in s :: s[k]
  }

  /** The chosen commands under the safeguarded keys. */
  function SafeguardData(s: Store, args: seq<string>): (r: Store)
    ensures r.Keys == TransmissionData(s, args).Keys * Safeguard.SafeguardKeys
    ensures r.Keys <= s.Keys && forall k | k in r :: r[k] == s[k]
  {
    Restrict(TransmissionData(s, args), Safeguard.SafeguardKeys)
  }

  /** The arm and light commands are transmission keys but not safeguarded ones. */
  lemma ArmAndLightUnguarded()
    ensures "Mot_R" in TransmissionKeys && "Mot_R" !in Safeguard.SafeguardKeys
    ensures "LED_M" in TransmissionKeys && "LED_M" !in Safeguard.SafeguardKeys
  {
  }

  /** The transmission read: the chosen commands cut down to the safeguarded keys, then
      rescaled so the estimated total current stays within the limit. The motor and light
      commands outside the safeguarded keys are therefore never part of what is sent. The
      currents are summed in `order`, the iteration order of the safeguarded keys. */
  method Transmit(s: Store, args: seq<string>, order: seq<string>, sqrt: real -> real)
    returns (r: Store)
    requires Safeguard.IsSqrt(sqrt) && Safeguard.Enumerates(order, Safeguard.SafeguardKeys)
    ensures r.Keys == SafeguardData(s, args).Keys
    ensures "Mot_R" !in r && "LED_M" !in r
    ensures forall k | k in r && s[k] in Safeguard.IdleValues :: r[k] == s[k]
    // within the limit, the stored commands go out unchanged
    ensures Safeguard.TotalAmp(order, SafeguardData(s, args)) <= Safeguard.AmpLimit ==>
      forall k | k in r :: r[k] == s[k]
    // over the limit, every command is the root nearer to it of its own share of the
    // current, every non-idle command draws the share limit / total of its former current,
    // and the total sent is within the limit
    ensures var sd := SafeguardData(s, args); var total := Safeguard.TotalAmp(order, sd);
      total > Safeguard.AmpLimit ==>
        var ratio := Safeguard.AmpLimit / total;
        && 0.0 < ratio < 1.0
        && forall k {:trigger Safeguard.RescaledEntry(sd[k], ratio, sqrt)} | k in sd ::
             r[k] == Safeguard.RescaledEntry(sd[k], ratio, sqrt)
    ensures var sd := SafeguardData(s, args); var total := Safeguard.TotalAmp(order, sd);
      total > Safeguard.AmpLimit ==> Safeguard.DrawsShare(sd, r, Safeguard.AmpLimit, total)
    ensures Safeguard.TotalAmp(order, SafeguardData(s, args)) > Safeguard.AmpLimit ==>
      Safeguard.TotalAmp(order, r) <= Safeguard.AmpLimit
  {
    ArmAndLightUnguarded();
    r := Safeguard.Safeguard(Safeguard.AmpLimit, order, SafeguardData(s, args), sqrt);
  }
}
