/** The `impl-trait` example crate: two types implementing `Greeter`, the
    functions returning `impl Greeter` or `Box<dyn Greeter>`, and their
    `Display` output. A `dyn Greeter` value is one of the two implementors. */
module Greeters {
  import opened StrUtil

  const U32: nat := 0x1_0000_0000

  datatype Greeter = Person(name: string) | Robot(id: nat)

  predicate ValidGreeter(g: Greeter) {
    g.Robot? ==> g.id < U32
  }

  const PERSON_GREETING := "Hello, I'm "
  const ROBOT_GREETING := "Beep boop! Robot #"

  /** `Greeter::greet`. */
  function Greet(g: Greeter): (s: string)
    ensures g.Person? ==> StartsWith(s, PERSON_GREETING) && EndsWith(s, "!")
    ensures g.Robot? ==> StartsWith(s, ROBOT_GREETING)
  {
    match g
    case Person(name) => PERSON_GREETING + name + "!"
    case Robot(id) => ROBOT_GREETING + NatToString(id)
  }

  /** Different greeters greet differently. */
  lemma GreetInjective(a: Greeter, b: Greeter)
    requires Greet(a) == Greet(b)
    ensures a == b
  {
    var s := Greet(a);
    if a.Person? && b.Person? {
      assert a.name == s[|PERSON_GREETING|..|s| - 1] == b.name;
    } else if a.Robot? && b.Robot? {
      assert NatToString(a.id) == s[|ROBOT_GREETING|..] == NatToString(b.id);
      NatToStringInjective(a.id, b.id);
    } else {
      GreetFirstChar(a);
      GreetFirstChar(b);
    }
  }

  lemma GreetFirstChar(g: Greeter)
    ensures |Greet(g)| > 0 && Greet(g)[0] == (if g.Person? then 'H' else 'B')
  {
  }

  /** `impl Display`. */
  function Display(g: Greeter): (s: string)
    ensures g.Person? ==> StartsWith(s, "Person(") && EndsWith(s, ")")
    ensures g.Robot? ==> StartsWith(s, "Robot(#") && EndsWith(s, ")")
  {
    match g
    case Person(name) => "Person(" + name + ")"
    case Robot(id) => "Robot(#" + NatToString(id) + ")"
  }

  /** Different greeters display differently. */
  lemma DisplayInjective(a: Greeter, b: Greeter)
    requires Display(a) == Display(b)
    ensures a == b
  {
    var s := Display(a);
    if a.Person? && b.Person? {
      assert a.name == s[7..|s| - 1] == b.name;
    } else if a.Robot? && b.Robot? {
      assert NatToString(a.id) == s[7..|s| - 1] == NatToString(b.id);
      NatToStringInjective(a.id, b.id);
    }
  }

  /** `create_person`: a person with that name. */
  function CreatePerson(name: string): (g: Greeter)
    ensures g.Person? && g.name == name
  {
    Person(name)
  }

  /** `create_robot`: a robot with that number. */
  function CreateRobot(id: nat): (g: Greeter)
    requires id < U32
    ensures g.Robot? && g.id == id && ValidGreeter(g)
  {
    Robot(id)
  }

  /** `create_greeter_by_type`: a person from `name` when `is_person`, else a
      robot from `id`; the other argument is ignored. */
  function CreateGreeterByType(isPerson: bool, name: string, id: nat): (g: Greeter)
    requires id < U32
    ensures ValidGreeter(g) && (g.Person? <==> isPerson)
  {
    if isPerson then Person(name) else Robot(id)
  }

  /** Choosing by type gives what the matching single-type constructor
      gives, whatever the unused argument is. */
  lemma CreateByTypeAgrees(isPerson: bool, name: string, id: nat, name2: string, id2: nat)
    requires id < U32 && id2 < U32
    ensures CreateGreeterByType(isPerson, name, id)
            == if isPerson then CreatePerson(name) else CreateRobot(id)
    ensures isPerson ==> CreateGreeterByType(isPerson, name, id) == CreateGreeterByType(isPerson, name, id2)
    ensures !isPerson ==> CreateGreeterByType(isPerson, name, id) == CreateGreeterByType(isPerson, name2, id)
  {
  }

  /** `print_greeting` (and its `_person`/`_robot` forms): the line written
      to standard output. */
  function PrintGreeting(g: Greeter): (line: string)
    ensures |line| > 0 && line[|line| - 1] == '\n' && line[..|line| - 1] == Greet(g)
  {
    Greet(g) + "\n"
  }
}
