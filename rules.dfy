/** RuleCondition (includes/RuleCondition.php): a group operator and the conditions it groups. */
module Rules {
  import opened Php

  /** The public fields are fixed once constructed; nothing in the plugin assigns them later. */
  class RuleCondition {
    const condition: Value
    const conditions: Value

    /** The constructor (includes/RuleCondition.php:27-30): both arguments are kept as given; the conditions default to []. */
    constructor(condition: Value, conditions: Value := Arr([]))
      ensures this.condition == condition && this.conditions == conditions
    {
      this.condition := condition;
      this.conditions := conditions;
    }

    /** RuleCondition::OR (includes/RuleCondition.php:5-7). */
    static method Or(conditions: Entries) returns (r: RuleCondition)
      ensures fresh(r) && r.condition == Str("OR") && r.conditions == Arr(conditions)
    {
      r := new RuleCondition(Str("OR"), Arr(conditions));
    }

    /** RuleCondition::AND (includes/RuleCondition.php:9-11). */
    static method And(conditions: Entries) returns (r: RuleCondition)
      ensures fresh(r) && r.condition == Str("AND") && r.conditions == Arr(conditions)
    {
      r := new RuleCondition(Str("AND"), Arr(conditions));
    }
  }
}
