/** Formatting a document with nested keys, on the heap: what the result means. */
module YamlFormatter {
  import opened Options
  import opened YamlTree
  import opened YamlMeaning
  import opened YamlTheorems
  import opened YamlOrder
  import opened YamlNodes

  datatype KeysWithDotsAction = KeepDots | NestObjects

  /**
   * applyActionOnKeysWithDots: nesting keeps the meaning of a well-formed document and leaves no dotted or repeated
   * key exactly when it has no conflicts; then keys stay in order and nesting again would change nothing.
   */
  method ApplyActionOnKeysWithDots(node: YamlNode, action: KeysWithDotsAction, ghost s: Shape)
    returns (ghost r: Shape)
    requires s.node == node && Shaped(s) && (action.NestObjects? ==> Extend(View(s)).Some?)
    modifies Refs(s)
    ensures r.node == node && Shaped(r)
    ensures action.KeepDots? ==> r == s && View(r) == old(View(s))
    ensures action.NestObjects? && old(WellFormed(View(s))) ==>
      (old(ConflictFree(View(s))) <==> Same(old(View(s)), View(r)) && Normal(View(r)))
    ensures action.NestObjects? && old(WellFormed(View(s))) && old(ConflictFree(View(s))) ==>
      OrderKept(old(View(s)), View(r)) && Extend(View(r)) == Some(View(r))
  {
    r := s;
    match action {
      case NestObjects =>
        ghost var t := View(s);
        if WellFormed(t) {
          ExpandsExactlyWithoutConflicts(t);
          if ConflictFree(t) {
            ExpandingTwice(t);
            ExpandingKeepsOrder(t);
          }
        }
        r := ExtendNestedObjects(node, s);
      case KeepDots =>
    }
  }
}
