/**
 * The prompt `begin_react_loop` sends on every round: the template `PROMPT`
 * with the action catalog and the user's input filled in. The template's
 * doubled braces are written here as the single braces `format` turns them
 * into.
 */
module Prompt {

  /** The template up to the `{actions}` placeholder. */
  const TemplateHead: string :=
    "You are a project scaffolding assistant. Given the user\'s request, think through the steps needed and take appropriate actions.\n"
    + "\n"
    + "Available actions:\n"

  /** The template between `{actions}` and `{input}`. */
  const TemplateMiddle: string :=
    "\n"
    + "\n"
    + "If the user\'s request requires project scaffolding, use one of the actions above.\n"
    + "If the user is asking a question or needs information, respond conversationally without using actions.\n"
    + "\n"
    + "Think through this step-by-step:\n"
    + "1) What is the user requesting?\n"
    + "2) Does this require project scaffolding or just information?\n"
    + "3) Choose appropriate response format\n"
    + "\n"
    + "Respond in ONE of these two formats:\n"
    + "\n"
    + "For project scaffolding:\n"
    + "Thought: [your reasoning]\n"
    + "Action: [action_name]\n"
    + "Action Args: [parameters as JSON]\n"
    + "\n"
    + "For information/conversation:\n"
    + "Thought: [your reasoning]\n"
    + "Response: [your helpful response]\n"
    + "\n"
    + "Examples:\n"
    + "User: \"Create a new Django project called myblog\"\n"
    + "Thought: User wants a Django project scaffold with name \'myblog\'\n"
    + "Action: scaffold_django\n"
    + "Action Args: {\"project_name\": \"myblog\"}\n"
    + "\n"
    + "User: \"What\'s the difference between Django and Flask?\"\n"
    + "Thought: User is asking for information about web frameworks\n"
    + "Response: Django and Flask are both Python web frameworks but have different philosophies. Django is a full-featured framework that provides many built-in features like admin interface, ORM, and authentication. Flask is a lightweight framework that gives you more flexibility in choosing your tools and architecture...\n"
    + "\n"
    + "Current conversation:\n"
    + "User: "

  /** The template after `{input}`. */
  const TemplateTail: string :=
    "\n"
    + "\n"
    + "Remember to respond with Thought/Action/Action Args."

  /** `PROMPT.format(actions=actions, input=input)`. The two texts are
      copied in verbatim: the values handed to `format` are not scanned
      for placeholders. */
  function Render(actions: string, input: string): string {
    TemplateHead + actions + TemplateMiddle + input + TemplateTail
  }

  /** The input can be read back from the prompt: for a fixed catalog, two
      different inputs never render to the same prompt. */
  lemma RenderInjective(actions: string, a: string, b: string)
    requires Render(actions, a) == Render(actions, b)
    ensures a == b
  {
    FillInjective(TemplateHead + actions + TemplateMiddle, a, b, TemplateTail);
  }

  /** Filling one slot between a fixed front and back is injective. */
  lemma FillInjective(front: string, a: string, b: string, back: string)
    requires front + a + back == front + b + back
    ensures a == b
  {
    var p := front + a + back;
    assert |a| == |b|;
    assert a == p[|front|..|front| + |a|];
  }
}
