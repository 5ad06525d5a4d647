/**
 * RuleDataMediator: resolves a rule's data request by dispatching it to the
 * handler registered for the (request type, response type) pair, keeping
 * each handler it has fetched from the service provider in a cache.
 */
module Mediator {
  import opened Base
  import opened DataRequests
  import opened FraudChecks
  import opened RulesEngineData
  import opened History
  import Text

  /** IRequestHandler<TRequest, TResponse>, identified by its two type arguments. */
  datatype HandlerKey = HandlerKey(requestType: string, responseType: string)

  /** A handler instance; the one implementation is RecentTransactionCountHandler,
      and `instance` tells apart the objects the provider hands out. */
  datatype Handler = RecentTransactionCountHandler(instance: nat)

  /** The handler type a request is dispatched to. */
  function KeyOf(q: DataRequest): HandlerKey {
    HandlerKey(RequestTypeName, ResponseTypeName)
  }

  function NoHandlerMessage(key: HandlerKey): string {
    "No handler registered for request type " + key.requestType + ". Please register an IRequestHandler<"
    + key.requestType + ", " + key.responseType + "> implementation."
  }

  /** HandleAsync: RecentTransactionCountHandler asks the history repository,
      whose count query either answers or raises the database's `fault`. */
  function Handle(h: Handler, q: DataRequest, checks: seq<FraudCheck>, fault: Option<Exception>): (r: Try<int>)
    ensures r.Ok? <==> fault.None?
    ensures r.Ok? ==> r.value == CountRecent(checks, q.accountId, q.since)
    ensures r.Throws? ==> r.error == fault.value
  {
    if fault.Some? then Throws(fault.value) else Ok(CountRecent(checks, q.accountId, q.since))
  }

  /** The answer ResolveAsync gives over the saved checks: the missing-handler
      exception, or else the registered handler's answer, which is the count
      or the exception its query raised (`queryFault`). */
  function Resolve(registry: map<HandlerKey, Handler>, checks: seq<FraudCheck>, queryFault: Option<Exception>,
                   q: DataRequest): (r: Try<int>)
    ensures r.Throws? <==> KeyOf(q) !in registry || queryFault.Some?
    ensures KeyOf(q) !in registry ==>
      r.Throws? && r.error.typeName == InvalidOperationExceptionType && r.error.message == NoHandlerMessage(KeyOf(q))
    ensures KeyOf(q) in registry && queryFault.Some? ==> r == Throws(queryFault.value)
    ensures r.Ok? ==> r.value == CountRecent(checks, q.accountId, q.since)
  {
    if KeyOf(q) in registry then Handle(registry[KeyOf(q)], q, checks, queryFault)
    else Throws(Exception(InvalidOperationExceptionType, NoHandlerMessage(KeyOf(q)), None))
  }

  /** The missing-handler message names the request type. */
  lemma NoHandlerMessageNamesRequest(key: HandlerKey)
    ensures Text.Contains(NoHandlerMessage(key), key.requestType)
  {
    var prefix := "No handler registered for request type ";
    var rest := ". Please register an IRequestHandler<" + key.requestType + ", " + key.responseType + "> implementation.";
    Text.ContainsConcat(prefix, key.requestType, rest);
    assert NoHandlerMessage(key) == prefix + key.requestType + rest;
  }

  class RuleDataMediator {
    /** The service provider's registrations (scoped handlers). */
    const registry: map<HandlerKey, Handler>
    /** The scoped database the history repository reads. */
    const db: RulesEngineDb
    /** The handler cache. */
    var cache: map<HandlerKey, Handler>
    /** Every GetService call made for a handler type, in order. */
    var providerLookups: seq<HandlerKey>
    /** Every HandleAsync invocation, in order. */
    var handlerCalls: seq<DataRequest>

    /** Every cached handler is the one the provider has registered for its key. */
    ghost predicate Valid()
      reads this
    {
      forall k :: k in cache ==> k in registry && cache[k] == registry[k]
    }

    constructor (registry: map<HandlerKey, Handler>, db: RulesEngineDb)
      ensures Valid() && this.registry == registry && this.db == db
      ensures cache == map[] && providerLookups == [] && handlerCalls == []
    {
      this.registry := registry;
      this.db := db;
      cache := map[];
      providerLookups := [];
      handlerCalls := [];
    }

    /** ResolveAsync<TRequest, TResponse>(request); `queryFault` is what the
        handler's database query raises (None when it answers). */
    method ResolveAsync(q: DataRequest, queryFault: Option<Exception>) returns (r: Try<int>)
      requires Valid()
      modifies this
      ensures Valid()
      ensures r == Resolve(registry, db.fraudChecks, queryFault, q)
      // the provider is asked only on a cache miss
      ensures KeyOf(q) in old(cache) ==> providerLookups == old(providerLookups)
      ensures KeyOf(q) !in old(cache) ==> providerLookups == old(providerLookups) + [KeyOf(q)]
      // a registered handler is cached and invoked exactly once
      ensures KeyOf(q) in registry ==>
        cache == old(cache)[KeyOf(q) := registry[KeyOf(q)]] && handlerCalls == old(handlerCalls) + [q]
      // a missing handler leaves the cache without the key and invokes nothing
      ensures KeyOf(q) !in registry ==> cache == old(cache) && handlerCalls == old(handlerCalls)
    {
      var key := KeyOf(q);
      var handler: Handler;
      if key in cache {
        handler := cache[key];
      } else {
        providerLookups := providerLookups + [key];
        if key !in registry {
          return Throws(Exception(InvalidOperationExceptionType, NoHandlerMessage(key), None));
        }
        handler := registry[key];
        cache := cache[key := handler];
      }
      handlerCalls := handlerCalls + [q];
      return Handle(handler, q, db.fraudChecks, queryFault);
    }
  }

  /** The cache only grows: an entry, once added, is never replaced or removed,
      whatever request is resolved next. */
  lemma CacheOnlyGrows(before: map<HandlerKey, Handler>, after: map<HandlerKey, Handler>,
                       registry: map<HandlerKey, Handler>, q: DataRequest)
    requires forall k :: k in before ==> k in registry && before[k] == registry[k]
    requires after == (if KeyOf(q) in registry then before[KeyOf(q) := registry[KeyOf(q)]] else before)
    ensures forall k :: k in before ==> k in after && after[k] == before[k]
  {
  }

  /** With the production registration in place the mediator answers every
      velocity request with the recent-transaction count, unless the count
      query fails, whose exception then reaches the rule unchanged. */
  lemma RegisteredResolvesCount(registry: map<HandlerKey, Handler>, checks: seq<FraudCheck>, q: DataRequest, e: Exception)
    requires HandlerKey(RequestTypeName, ResponseTypeName) in registry
    ensures Resolve(registry, checks, None, q) == Ok(CountRecent(checks, q.accountId, q.since))
    ensures Resolve(registry, checks, Some(e), q) == Throws(e)
  {
  }
}
