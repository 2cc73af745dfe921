/** The floating chat widget (`Chatbot.tsx`): a button that opens a chat
    window, which can be minimized, closed, or left for the contact page,
    and a guarded send that appends the visitor's message. */
module Chatbot {
  import Text

  datatype Message = Message(id: int, text: string, isBot: bool)

  /** The widget's state: the two window flags, the conversation and the
      text being typed. */
  datatype Widget = Widget(isOpen: bool, isMinimized: bool, messages: seq<Message>, input: string)

  const Greeting: Message := Message(1, "Hello! I'm here to help you with your real estate needs. Please fill out our contact form and we'll get back to you as soon as possible!", true)

  /** The route the redirect navigates to, and the route that hides the widget. */
  const ContactPath: string := "/contact"
  const AdminPath: string := "/admin"

  /** Closed, full size, the greeting alone and nothing typed. */
  function Initial(): (w: Widget)
    ensures !w.isOpen && !w.isMinimized && w.input == ""
    ensures |w.messages| == 1 && w.messages[0].isBot
    ensures w.messages == [Greeting] && w.messages[0].id == 1
  {
    Widget(false, false, [Greeting], "")
  }

  /** `openChatbot`: open, at full size. */
  function Open(w: Widget): (r: Widget)
    ensures r.isOpen && !r.isMinimized
    ensures r.messages == w.messages && r.input == w.input
  {
    w.(isOpen := true, isMinimized := false)
  }

  /** `closeChatbot`: closed, and the minimized flag reset. */
  function Close(w: Widget): (r: Widget)
    ensures !r.isOpen && !r.isMinimized
    ensures r.messages == w.messages && r.input == w.input
  {
    w.(isOpen := false, isMinimized := false)
  }

  /** `handleContactFormRedirect`: closes the widget as `closeChatbot`
      does and navigates to the contact page; the second component is the
      route. */
  function Redirect(w: Widget): (r: (Widget, string))
    ensures r.0 == Close(w)
    ensures r.1 == ContactPath
  {
    (w.(isOpen := false, isMinimized := false), "/contact")
  }

  /** `toggleMinimize`: flips the minimized flag alone. */
  function ToggleMinimize(w: Widget): (r: Widget)
    ensures r.isMinimized != w.isMinimized
    ensures r.isOpen == w.isOpen && r.messages == w.messages && r.input == w.input
  {
    w.(isMinimized := !w.isMinimized)
  }

  /** The input's `onChange`. */
  function SetInput(w: Widget, text: string): (r: Widget)
    ensures r.input == text
    ensures r.isOpen == w.isOpen && r.isMinimized == w.isMinimized && r.messages == w.messages
  {
    w.(input := text)
  }

  /** Trimming the input leaves nothing. */
  predicate IsBlank(input: string)
  {
    Text.Trim(input) == ""
  }

  /** `handleSendMessage`: blank input is ignored; otherwise the input, as
      typed and untrimmed, is appended as a visitor message with id `now`
      (`Date.now()`), and the input is cleared. */
  function Send(w: Widget, now: int): (r: Widget)
    ensures IsBlank(w.input) ==> r == w
    ensures !IsBlank(w.input) ==> r.messages == w.messages + [Message(now, w.input, false)] && r.input == ""
    ensures r.isOpen == w.isOpen && r.isMinimized == w.isMinimized
  {
    if IsBlank(w.input) then w
    else w.(messages := w.messages + [Message(now, w.input, false)], input := "")
  }

  const ReplyText: string := "Thank you for your message! We will contact you later. Please fill out our contact form for a detailed response, and our team will get back to you within 24 hours."

  /** The timer callback `handleSendMessage` schedules after a send: the
      fixed bot answer is appended with id `later + 1`, where `later` is the
      clock value the callback itself reads, a second after the send. The
      delay is not modelled. */
  function Reply(w: Widget, later: int): (r: Widget)
    ensures |r.messages| == |w.messages| + 1 && r.messages[..|w.messages|] == w.messages
    ensures r.messages[|w.messages|].isBot && r.messages[|w.messages|].id == later + 1
    ensures r.messages[|w.messages|].text == ReplyText
    ensures r.isOpen == w.isOpen && r.isMinimized == w.isMinimized && r.input == w.input
  {
    w.(messages := w.messages + [Message(later + 1, ReplyText, true)])
  }

  /** `handleKeyPress`: Enter sends, every other key does nothing. */
  function KeyPress(w: Widget, key: string, now: int): (r: Widget)
    ensures key == "Enter" ==> r == Send(w, now)
    ensures key != "Enter" ==> r == w
  {
    if key == "Enter" then Send(w, now) else w
  }

  /** Minimizing twice restores the widget. */
  lemma ToggleTwice(w: Widget)
    ensures ToggleMinimize(ToggleMinimize(w)) == w
  {
  }

  /** A send changes the widget exactly when the input is not all white
      space. */
  lemma SendIgnoredIffBlank(w: Widget, now: int)
    ensures Send(w, now) == w <==> Text.AllSpace(w.input)
  {
    Text.TrimEmptyIffAllSpace(w.input);
    if !IsBlank(w.input) {
      assert |Send(w, now).messages| == |w.messages| + 1;
    }
  }

  /** Sending never removes or rewrites a message: the old conversation is a
      prefix of the new one, and at most one message is added. */
  lemma SendExtends(w: Widget, now: int)
    ensures w.messages <= Send(w, now).messages
    ensures |Send(w, now).messages| <= |w.messages| + 1
  {
  }

  /** A non-blank send at clock value `now` followed by its reply at clock
      value `later` adds the visitor's message and then the bot's, in that
      order; nothing earlier changes. */
  lemma SendThenReply(w: Widget, now: int, later: int)
    requires !Text.AllSpace(w.input)
    ensures var r := Reply(Send(w, now), later);
      && r.messages == w.messages + [Message(now, w.input, false), Message(later + 1, ReplyText, true)]
      && r.input == ""
  {
    Text.TrimEmptyIffAllSpace(w.input);
    var s := Send(w, now);
    assert s.messages == w.messages + [Message(now, w.input, false)];
  }

  /** A closed widget is never minimized. */
  predicate FlagsConsistent(w: Widget)
  {
    !w.isOpen ==> !w.isMinimized
  }

  /** Every handler the user can reach keeps the flags consistent; the
      minimize button exists only in the open window. */
  lemma FlagsPreserved(w: Widget, now: int, key: string, text: string)
    requires FlagsConsistent(w)
    ensures FlagsConsistent(Initial())
    ensures FlagsConsistent(Open(w)) && FlagsConsistent(Close(w)) && FlagsConsistent(Redirect(w).0)
    ensures w.isOpen ==> FlagsConsistent(ToggleMinimize(w))
    ensures FlagsConsistent(Send(w, now)) && FlagsConsistent(KeyPress(w, key, now))
    ensures FlagsConsistent(SetInput(w, text)) && FlagsConsistent(Reply(w, now))
  {
  }

  /** Nothing is drawn on the admin route; elsewhere the round button shows
      while the widget is closed and the window while it is open. */
  predicate ButtonShown(path: string, w: Widget)
  {
    path != AdminPath && !w.isOpen
  }

  predicate WindowShown(path: string, w: Widget)
  {
    path != AdminPath && w.isOpen
  }

  /** The message list and input show only in an open, full-size window. */
  predicate ConversationShown(path: string, w: Widget)
  {
    WindowShown(path, w) && !w.isMinimized
  }

  /** On `/admin` nothing of the widget is drawn, whatever its state; on
      any other route exactly one of button and window is. */
  lemma Rendering(path: string, w: Widget)
    ensures path == AdminPath ==> !ButtonShown(path, w) && !WindowShown(path, w) && !ConversationShown(path, w)
    ensures path != AdminPath ==> ButtonShown(path, w) != WindowShown(path, w)
  {
  }

  /** Opening from any state shows the whole conversation off the admin
      route, and closing or redirecting brings back the button. */
  lemma OpenShowsConversation(path: string, w: Widget)
    requires path != AdminPath
    ensures ConversationShown(path, Open(w))
    ensures ButtonShown(path, Close(w)) && ButtonShown(path, Redirect(w).0)
  {
  }
}
