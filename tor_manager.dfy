/**
 * The backend instance registry of `src/torManager.js`: region hints are normalized to
 * two-letter country codes, each code gets at most one Tor process (created lazily, with
 * concurrent requests for the same code sharing one creation), and dynamic SOCKS ports come
 * from a monotonic counter.
 */
module TorManager {
  import opened Wrappers
  import opened JsText

  // ---------------------------------------------------------------------------------------
  // normalizeCountryCode

  /** Exactly two letters a-z: what `/^[a-z]{2}$/` accepts. */
  predicate IsCountryCode(c: string) {
    |c| == 2 && forall i :: 0 <= i < |c| ==> 'a' <= c[i] <= 'z'
  }

  /**
   * `normalizeCountryCode`: `None` for an absent or empty hint and for anything that is not
   * two letters once trimmed and lower-cased ("default" and "any" included); otherwise the
   * trimmed, lower-cased hint.
   */
  function NormalizeCountryCode(value: Option<string>): (r: Option<string>)
    ensures r.Some? <==> value.Some? && IsCountryCode(ToLower(Trim(value.value)))
    ensures r.Some? ==> r.value == ToLower(Trim(value.value)) && IsCountryCode(r.value)
  {
    if value.None? || value.value == "" then None
    else
      var code := ToLower(Trim(value.value));
      if code == "" then None
      else if code == "default" || code == "any" then (assert |code| != 2; None)
      else if !IsCountryCode(code) then None
      else Some(code)
  }

  /** Every way `normalizeCountryCode` falls back to the default route. */
  lemma NormalizeNullCases(s: string)
    ensures NormalizeCountryCode(None) == None
    ensures AllSpace(s) ==> NormalizeCountryCode(Some(s)) == None
    ensures ToLower(Trim(s)) == "default" || ToLower(Trim(s)) == "any" ==> NormalizeCountryCode(Some(s)) == None
    ensures |Trim(s)| != 2 ==> NormalizeCountryCode(Some(s)) == None
  {
    if AllSpace(s) {
      TrimAllSpace(s);
    }
  }

  /** A hint holding any character other than white space that does not lower to a-z is no region. */
  lemma NormalizeNonLetter(s: string)
    ensures (exists i :: 0 <= i < |s| && !IsSpace(s[i]) && !('a' <= LowerChar(s[i]) <= 'z'))
            ==> NormalizeCountryCode(Some(s)) == None
  {
    if exists i :: 0 <= i < |s| && !IsSpace(s[i]) && !('a' <= LowerChar(s[i]) <= 'z') {
      var i :| 0 <= i < |s| && !IsSpace(s[i]) && !('a' <= LowerChar(s[i]) <= 'z');
      var k := |s| - |TrimStart(s)|;
      TrimParts(s);
      assert ToLower(Trim(s))[i - k] == LowerChar(s[i]);
    }
  }

  /** A hint without white space is only lower-cased. */
  lemma NormalizeNoSpace(s: string)
    requires NoSpace(s)
    ensures NormalizeCountryCode(Some(s)) == if IsCountryCode(ToLower(s)) then Some(ToLower(s)) else None
  {
    TrimNoSpace(s);
  }

  /** "US" routes to "us". */
  lemma NormalizeExampleUS()
    ensures NormalizeCountryCode(Some("US")) == Some("us")
  {
    NormalizeNoSpace("US");
    assert ToLower("US") == "us";
  }

  /** "ANY" (any case of "any") is no region. */
  lemma NormalizeExampleANY()
    ensures NormalizeCountryCode(Some("ANY")) == None
  {
    NormalizeNoSpace("ANY");
  }

  /** "default" is no region. */
  lemma NormalizeExampleDefault()
    ensures NormalizeCountryCode(Some("default")) == None
  {
    NormalizeNoSpace("default");
  }

  /** Three letters, "abc", are no region. */
  lemma NormalizeExampleThreeLetters()
    ensures NormalizeCountryCode(Some("abc")) == None
  {
    NormalizeNoSpace("abc");
  }

  /** A digit, as in "1a", is no region. */
  lemma NormalizeExampleDigit()
    ensures NormalizeCountryCode(Some("1a")) == None
  {
    NormalizeNoSpace("1a");
    assert ToLower("1a")[0] == '1';
  }

  /** JavaScript lower-cases U+212A KELVIN SIGN to 'k', so "\U{212A}R" routes to "kr". */
  lemma NormalizeKelvinSign()
    ensures NormalizeCountryCode(Some("\U{212A}R")) == Some("kr")
  {
    NormalizeNoSpace("\U{212A}R");
    assert ToLower("\U{212A}R") == "kr";
  }

  lemma LowerCodeUnchanged(c: string)
    requires IsCountryCode(c)
    ensures Trim(c) == c && ToLower(c) == c
  {
    TrimNoSpace(c);
  }

  /** Normalizing is idempotent: a normalized code normalizes to itself. */
  lemma {:induction false} NormalizeIdempotent(value: Option<string>)
    ensures NormalizeCountryCode(NormalizeCountryCode(value)) == NormalizeCountryCode(value)
  {
    var r := NormalizeCountryCode(value);
    if r.Some? {
      LowerCodeUnchanged(r.value);
    }
  }

  /** White space around a hint never changes where it routes. */
  lemma {:induction false} NormalizeIgnoresPadding(p: string, s: string, q: string)
    requires AllSpace(p) && AllSpace(q)
    ensures NormalizeCountryCode(Some(p + s + q)) == NormalizeCountryCode(Some(s))
  {
    TrimIgnoresPadding(p, s, q);
  }

  // ---------------------------------------------------------------------------------------
  // The TorManager class

  /** An opaque handle on a spawned Tor process. */
  type Pid = nat

  /** A live per-country instance: `{ socksPort, process }`. */
  datatype Instance = Instance(socksPort: int, process: Pid)

  /**
   * An in-flight `_createCountryInstance` promise. Its SOCKS port is already fixed: the async
   * function allocates it synchronously, before its first `await`.
   */
  datatype Creation = Creation(socksPort: int)

  /**
   * What the synchronous part of `getSocksPortForRequest` decides: the default port, a live
   * instance's port, waiting on the creation already in flight, or a new creation whose port
   * has just been allocated.
   */
  datatype Resolution =
    | DefaultPort(port: int)
    | LivePort(port: int)
    | AwaitCreation(region: string, port: int)
    | StartCreation(region: string, port: int)

  /** What a creation delivers to its creator and to every caller awaiting it. */
  datatype PortResult = Port(port: int) | BackendUnavailable

  class TorManager {
    /** `defaultTor.socksPort`. */
    const defaultSocksPort: int
    /** The first dynamically allocated port (`DYNAMIC_TOR_SOCKS_PORT_START`). */
    ghost const startPort: int

    var defaultProcess: Option<Pid>
    /** countryCode -> { socksPort, process } */
    var countryInstances: map<string, Instance>
    /** countryCode -> the creation in flight */
    var creating: map<string, Creation>
    var nextDynamicPort: int

    /** Every port `_allocatePort` has handed out so far. */
    ghost var issuedPorts: set<int>

    /**
     * The registry invariant: only normalized codes are keys, a code is never both live and
     * being created, every port in use was handed out, and no two entries share a port.
     */
    ghost predicate Valid()
      reads this
    {
      && startPort <= nextDynamicPort
      && (forall p :: p in issuedPorts <==> startPort <= p < nextDynamicPort)
      && countryInstances.Keys !! creating.Keys
      && (forall r :: r in countryInstances ==> IsCountryCode(r) && countryInstances[r].socksPort in issuedPorts)
      && (forall r :: r in creating ==> IsCountryCode(r) && creating[r].socksPort in issuedPorts)
      && (forall r, r' :: r in countryInstances && r' in countryInstances && r != r'
            ==> countryInstances[r].socksPort != countryInstances[r'].socksPort)
      && (forall r, r' :: r in creating && r' in creating && r != r'
            ==> creating[r].socksPort != creating[r'].socksPort)
      && (forall r, r' :: r in countryInstances && r' in creating
            ==> countryInstances[r].socksPort != creating[r'].socksPort)
    }

    constructor (defaultSocksPort: int, startPort: int)
      ensures Valid()
      ensures this.defaultSocksPort == defaultSocksPort && this.startPort == startPort
      ensures defaultProcess == None && countryInstances == map[] && creating == map[]
      ensures nextDynamicPort == startPort && issuedPorts == {}
    {
      this.defaultSocksPort := defaultSocksPort;
      this.startPort := startPort;
      defaultProcess := None;
      countryInstances := map[];
      creating := map[];
      nextDynamicPort := startPort;
      issuedPorts := {};
    }

    /**
     * `ensureDefault`: spawns the default Tor process unless one was already spawned, so the
     * default instance is never created twice.
     */
    method EnsureDefault(spawn: Pid) returns (spawned: bool)
      requires Valid()
      modifies this`defaultProcess
      ensures Valid()
      ensures spawned <==> old(defaultProcess).None?
      ensures defaultProcess == if spawned then Some(spawn) else old(defaultProcess)
    {
      if defaultProcess.Some? {
        return false;
      }
      defaultProcess := Some(spawn);
      spawned := true;
    }

    /**
     * `_allocatePort`: returns the cursor and advances it by one, so the port is fresh and
     * greater than every port handed out before.
     */
    method AllocatePort() returns (port: int)
      requires Valid()
      modifies this`nextDynamicPort, this`issuedPorts
      ensures Valid()
      ensures port == old(nextDynamicPort) && nextDynamicPort == old(nextDynamicPort) + 1
      ensures port !in old(issuedPorts) && issuedPorts == old(issuedPorts) + {port}
      ensures forall q :: q in old(issuedPorts) ==> q < port
    {
      port := nextDynamicPort;
      nextDynamicPort := nextDynamicPort + 1;
      issuedPorts := issuedPorts + {port};
    }

    /**
     * The synchronous first segment of `getSocksPortForRequest`, from the normalization up to
     * registering the creation promise: no region gives the default port, a live instance
     * gives its port, a creation in flight is joined, and only otherwise a port is issued
     * and a creation registered. Live instances are never touched.
     */
    method ResolvePort(countryCode: Option<string>) returns (r: Resolution)
      requires Valid()
      modifies this`nextDynamicPort, this`issuedPorts, this`creating
      ensures Valid()
      ensures countryInstances == old(countryInstances)
      ensures r.StartCreation? <==>
        var n := NormalizeCountryCode(countryCode);
        n.Some? && n.value !in old(countryInstances) && n.value !in old(creating)
      ensures !r.StartCreation? ==>
        creating == old(creating) && nextDynamicPort == old(nextDynamicPort) && issuedPorts == old(issuedPorts)
      ensures match NormalizeCountryCode(countryCode)
        case None => r == DefaultPort(defaultSocksPort)
        case Some(code) =>
          if code in old(countryInstances) then r == LivePort(old(countryInstances)[code].socksPort)
          else if code in old(creating) then r == AwaitCreation(code, old(creating)[code].socksPort)
          else
            && r == StartCreation(code, old(nextDynamicPort))
            && nextDynamicPort == old(nextDynamicPort) + 1
            && r.port !in old(issuedPorts)
            && creating == old(creating)[code := Creation(r.port)]
    {
      var normalized := NormalizeCountryCode(countryCode);
      if normalized.None? {
        return DefaultPort(defaultSocksPort);
      }
      var code := normalized.value;
      if code in countryInstances {
        return LivePort(countryInstances[code].socksPort);
      }
      if code in creating {
        return AwaitCreation(code, creating[code].socksPort);
      }
      var port := AllocatePort();
      creating := creating[code := Creation(port)];
      r := StartCreation(code, port);
    }

    /**
     * The continuation of the creator in `getSocksPortForRequest` (the `try`/`finally` after
     * `await createPromise`): on success the instance is stored under its code with the port
     * issued for it; in every case the pending entry is removed. The creator and every
     * caller that joined the creation receive the same result. Other entries are untouched.
     */
    method FinishCreation(code: string, bootstrapped: Option<Pid>) returns (result: PortResult)
      requires Valid() && code in creating
      modifies this`countryInstances, this`creating
      ensures Valid()
      ensures creating == old(creating) - {code}
      ensures bootstrapped.Some? ==>
        && result == Port(old(creating)[code].socksPort)
        && countryInstances == old(countryInstances)[code := Instance(result.port, bootstrapped.value)]
      ensures bootstrapped.None? ==> result == BackendUnavailable && countryInstances == old(countryInstances)
      ensures forall c :: c in old(countryInstances) ==> c in countryInstances && countryInstances[c] == old(countryInstances)[c]
    {
      var port := creating[code].socksPort;
      assert code !in countryInstances;
      if bootstrapped.Some? {
        countryInstances := countryInstances[code := Instance(port, bootstrapped.value)];
        result := Port(port);
      } else {
        result := BackendUnavailable;
      }
      creating := creating - {code};
    }

    /** The processes of the live per-country instances whose codes are in `codes`. */
    ghost function ProcessesOf(codes: set<string>): set<Pid>
      reads this
      requires codes <= countryInstances.Keys
    {
      set c | c in codes :: countryInstances[c].process
    }

    /**
     * `shutdown`: signals the process of every live per-country instance and the default
     * process, if one was spawned. Creations still in flight are not signalled, and no state
     * changes.
     */
    method Shutdown() returns (signalled: set<Pid>)
      ensures signalled == ProcessesOf(countryInstances.Keys)
        + (if defaultProcess.Some? then {defaultProcess.value} else {})
    {
      var remaining := countryInstances.Keys;
      signalled := {};
      while remaining != {}
        invariant remaining <= countryInstances.Keys
        invariant signalled == ProcessesOf(countryInstances.Keys - remaining)
        decreases remaining
      {
        var c :| c in remaining;
        ghost var done := countryInstances.Keys - remaining;
        signalled := signalled + {countryInstances[c].process};
        remaining := remaining - {c};
        assert countryInstances.Keys - remaining == done + {c};
      }
      if defaultProcess.Some? {
        signalled := signalled + {defaultProcess.value};
      }
    }
  }

  /**
   * Three concurrent requests for region "US" on a fresh registry: the first starts the one
   * creation, the second joins it and is promised the same port, and once the creation
   * succeeds a later request finds the live instance on that port.
   */
  method SameRegionConverges(defaultPort: int, start: int, pid: Pid)
    returns (first: Resolution, second: Resolution, delivered: PortResult, third: Resolution)
    ensures first == StartCreation("us", start)
    ensures second == AwaitCreation("us", start)
    ensures delivered == Port(start)
    ensures third == LivePort(start)
  {
    var manager := new TorManager(defaultPort, start);
    NormalizeExampleUS();
    first := manager.ResolvePort(Some("US"));
    second := manager.ResolvePort(Some("US"));
    delivered := manager.FinishCreation("us", Some(pid));
    third := manager.ResolvePort(Some("US"));
  }

  /**
   * A failed creation fails every caller that joined it, and leaves nothing behind: the
   * second request for "US" joins the creation and shares its failure, and a later request
   * starts a new creation on a fresh port.
   */
  method SameRegionFailureShared(defaultPort: int, start: int)
    returns (first: Resolution, second: Resolution, delivered: PortResult, third: Resolution)
    ensures first == StartCreation("us", start)
    ensures second == AwaitCreation("us", start)
    ensures delivered == BackendUnavailable
    ensures third == StartCreation("us", start + 1)
  {
    var manager := new TorManager(defaultPort, start);
    NormalizeExampleUS();
    first := manager.ResolvePort(Some("US"));
    second := manager.ResolvePort(Some("US"));
    delivered := manager.FinishCreation("us", None);
    third := manager.ResolvePort(Some("US"));
  }
}
