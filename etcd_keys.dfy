/**
 * The etcd key layout of pkg/etcd/common.go: every instance of a service is registered
 * under `kitex/registry-etcd/<service>/<addr>`, and a resolver fetches every key that
 * starts with `kitex/registry-etcd/<service>`.
 */
module EtcdKeys {

  const EtcdPrefix: string := "kitex/registry-etcd"

  /** `serviceKeyPrefix`. */
  function ServiceKeyPrefix(serviceName: string): (p: string)
    ensures EtcdPrefix + "/" <= p && |p| == |EtcdPrefix| + 1 + |serviceName|
    ensures p[|EtcdPrefix| + 1..] == serviceName
  {
    EtcdPrefix + "/" + serviceName
  }

  /** `serviceKey`. */
  function ServiceKey(serviceName: string, addr: string): (k: string)
    ensures ServiceKeyPrefix(serviceName) <= k
    ensures |k| == |ServiceKeyPrefix(serviceName)| + 1 + |addr|
    ensures k[|ServiceKeyPrefix(serviceName)|] == '/' && k[|ServiceKeyPrefix(serviceName)| + 1..] == addr
  {
    ServiceKeyPrefix(serviceName) + "/" + addr
  }

  /** For one service, distinct addresses are distinct keys. */
  lemma ServiceKeyInjective(serviceName: string, a1: string, a2: string)
    requires ServiceKey(serviceName, a1) == ServiceKey(serviceName, a2)
    ensures a1 == a2
  {
    var n := |ServiceKeyPrefix(serviceName)| + 1;
    assert a1 == ServiceKey(serviceName, a1)[n..];
    assert a2 == ServiceKey(serviceName, a2)[n..];
  }

  /** Distinct service names give distinct prefixes. */
  lemma ServiceKeyPrefixInjective(s1: string, s2: string)
    requires ServiceKeyPrefix(s1) == ServiceKeyPrefix(s2)
    ensures s1 == s2
  {
    var n := |EtcdPrefix| + 1;
    assert s1 == ServiceKeyPrefix(s1)[n..];
    assert s2 == ServiceKeyPrefix(s2)[n..];
  }

  /** The prefix has no separator after the name, so the key of a service whose name
      extends another's also starts with the other's prefix. */
  lemma LongerNameSharesPrefix(serviceName: string, suffix: string, addr: string)
    ensures ServiceKeyPrefix(serviceName) <= ServiceKey(serviceName + suffix, addr)
  {
    assert ServiceKey(serviceName + suffix, addr) == ServiceKeyPrefix(serviceName) + (suffix + "/" + addr);
  }

  /** Across services the layout is ambiguous when names or addresses contain '/'. */
  lemma SlashMakesKeysCollide()
    ensures ServiceKey("a", "b/c") == ServiceKey("a/b", "c")
  {
  }
}
